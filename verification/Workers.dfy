/** The pipeline's workers as inetdiagers: what they count and report under any schedule. */
module Workers {
  import opened Sampling
  import I = Inetdiager
  import opened Pipeline
  import opened Conservation

  // ---- Every processed message was survived ----

  predicate Survived(c: Config, w: WorkerThread) {
    forall k :: 0 <= k < |w.processed| ==> !MessagePanics(c, w.processed[k].body)
  }

  predicate AllSurvived(c: Config, s: State) {
    forall j :: 0 <= j < |s.workers| ==> Survived(c, s.workers[j])
  }

  lemma ExecKeepsSurvived(c: Config, s: State, e: Event)
    requires AllSurvived(c, s) && Enabled(c, s, e)
    ensures AllSurvived(c, Exec(c, s, e))
  {
    hide MessagePanics, Yields;
    if e.Process? {
      ProcessMoves(c, s, e);
      hide Exec;
      SurvivedOneMore(c, s, e);
    } else {
      hide Survived;
      OthersProcessNothing(c, s, e);
    }
  }

  lemma SurvivedOneMore(c: Config, s: State, e: Event)
    requires AllSurvived(c, s) && Enabled(c, s, e) && e.Process?
    ensures AllSurvived(c, Exec(c, s, e))
  {
    hide MessagePanics;
    var t := Exec(c, s, e);
    if t.crash == Alive {
      assert Survived(c, t.workers[e.j]) by {
        var w, w1 := s.workers[e.j], t.workers[e.j];
        assert Survived(c, w) && w1.processed == w.processed + [w.phase.msg];
      }
      hide Survived;
    } else {
      hide Survived;
    }
  }

  lemma OthersProcessNothing(c: Config, s: State, e: Event)
    requires AllSurvived(c, s) && Enabled(c, s, e) && !e.Process?
    ensures AllSurvived(c, Exec(c, s, e))
  {
    hide Yields, Survived;
    var t := Exec(c, s, e);
    NoWork(c);
    forall j | 0 <= j < |t.workers| ensures Survived(c, t.workers[j]) {
      if j < |s.workers| {
        assert t.workers[j].processed == s.workers[j].processed;
        SameSurvived(c, s.workers[j], t.workers[j]);
      } else {
        SameSurvived(c, WorkerThread(0, Idle, []), t.workers[j]);
      }
    }
  }

  lemma NoWork(c: Config)
    ensures Survived(c, WorkerThread(0, Idle, []))
  {
  }

  lemma SameSurvived(c: Config, w: WorkerThread, v: WorkerThread)
    requires Survived(c, w) && v.processed == w.processed
    ensures Survived(c, v)
  {
    hide MessagePanics;
  }

  lemma {:induction false} RunsSurvive(c: Config, run: seq<State>)
    requires IsRun(c, run)
    ensures AllSurvived(c, run[|run| - 1])
    decreases |run|
  {
    hide Next, AllSurvived;
    var n := |run| - 1;
    if n == 0 {
      NobodyYet(c);
    } else {
      RunPrefix(c, run);
      RunsSurvive(c, run[..n]);
      NextSurvives(c, run[n - 1], run[n]);
    }
  }

  lemma NobodyYet(c: Config)
    ensures AllSurvived(c, INIT)
  {
  }

  lemma NextSurvives(c: Config, s: State, t: State)
    requires AllSurvived(c, s) && Next(c, s, t)
    ensures AllSurvived(c, t)
  {
    hide Enabled, Exec, AllSurvived;
    var e :| Enabled(c, s, e) && t == Exec(c, s, e);
    ExecKeepsSurvived(c, s, e);
  }

  lemma ReachableSurvived(c: Config, s: State)
    requires Reachable(c, s)
    ensures AllSurvived(c, s)
  {
    hide Next, AllSurvived;
    var run: seq<State> :| IsRun(c, run) && run[|run| - 1] == s;
    RunsSurvive(c, run);
  }

  // ---- The inputs of a pipeline worker ----

  /** inputs is what the inetdiager behind w has worked on; start gives the time each poll began. */
  ghost predicate LifeOf(start: nat -> nat, w: WorkerThread, inputs: seq<I.Input>) {
    && |inputs| == |w.processed|
    && forall k :: 0 <= k < |inputs| ==>
         inputs[k].body == w.processed[k].body && inputs[k].epochTime == start(w.processed[k].stamp)
  }

  ghost predicate LivesOf(start: nat -> nat, ws: seq<WorkerThread>, lives: seq<seq<I.Input>>) {
    |lives| == |ws| && forall j :: 0 <= j < |ws| ==> LifeOf(start, ws[j], lives[j])
  }

  lemma LifeSurvives(c: Config, start: nat -> nat, w: WorkerThread, inputs: seq<I.Input>, hostname: string)
    requires Survived(c, w) && LifeOf(start, w, inputs)
    ensures I.Life(hostname, c.reportModulus, inputs).Alive?
  {
    I.LifePanicsIff(hostname, c.reportModulus, inputs);
    forall i | 0 <= i < |inputs| ensures inputs[i].body == []
        || !(c.reportModulus == 0 || I.BodyPanics(inputs[i].body)) {
      assert !MessagePanics(c, w.processed[i].body);
    }
  }

  /** The inetdiagers behind the workers of a reachable state are alive. */
  lemma WorkersLive(c: Config, s: State, start: nat -> nat, lives: seq<seq<I.Input>>, hostname: string, j: nat)
    requires Reachable(c, s) && LivesOf(start, s.workers, lives) && j < |lives|
    ensures I.Life(hostname, c.reportModulus, lives[j]).Alive?
  {
    hide Reachable, LifeOf, Survived, I.Life;
    ReachableSurvived(c, s);
    LifeSurvives(c, start, s.workers[j], lives[j], hostname);
  }

  // ---- Report bound ----

  function Counts(lives: seq<seq<I.Input>>): (n: seq<nat>)
    ensures |n| == |lives|
  {
    if lives == [] then [] else Counts(lives[..|lives| - 1]) + [I.NonEmpty(lives[|lives| - 1])]
  }

  /** Sum of the workers' udpWritesTotal. */
  function Writes(hostname: string, modulus: int, lives: seq<seq<I.Input>>): int {
    if lives == [] then 0
    else
      var r := I.Life(hostname, modulus, lives[|lives| - 1]);
      Writes(hostname, modulus, lives[..|lives| - 1]) + if r.Alive? then r.worker.totals.udpWritesTotal else 0
  }

  lemma {:induction false} SumAppend(counts: seq<nat>, n: nat)
    ensures Sum(counts + [n]) == Sum(counts) + n
  {
    if counts == [] {
      assert [n][1..] == [];
    } else {
      SumAppend(counts[1..], n);
      assert (counts + [n])[1..] == counts[1..] + [n];
    }
  }

  lemma {:induction false} SelectedTotalAppend(counts: seq<nat>, n: nat, m: int)
    requires m != 0
    ensures SelectedTotal(counts + [n], m) == SelectedTotal(counts, m) + SelectedCount(n, m)
  {
    hide SelectedCount;
    if counts == [] {
      assert [n][1..] == [];
    } else {
      SelectedTotalAppend(counts[1..], n, m);
      assert (counts + [n])[1..] == counts[1..] + [n];
    }
  }

  lemma {:induction false} WritesAreSelected(hostname: string, modulus: int, lives: seq<seq<I.Input>>)
    requires modulus != 0 && forall j :: 0 <= j < |lives| ==> I.Life(hostname, modulus, lives[j]).Alive?
    ensures Writes(hostname, modulus, lives) == SelectedTotal(Counts(lives), modulus)
  {
    hide I.Life, I.NonEmpty, SelectedCount, SelectedTotal;
    if lives == [] {
      assert SelectedTotal([], modulus) == 0 by { NoSelections(modulus); }
    } else {
      var n := |lives| - 1;
      assert forall j :: 0 <= j < n ==> lives[..n][j] == lives[j];
      WritesAreSelected(hostname, modulus, lives[..n]);
      I.LifeCounts(hostname, modulus, lives[n]);
      SelectedTotalAppend(Counts(lives[..n]), I.NonEmpty(lives[n]), modulus);
    }
  }

  lemma NoSelections(m: int)
    requires m != 0
    ensures SelectedTotal([], m) == 0
  {
  }

  function NonEmptyProcessed(w: WorkerThread): multiset<Msg> {
    NonEmptyOf(w.processed)
  }

  function NonEmptyOf(msgs: seq<Msg>): multiset<Msg> {
    if msgs == [] then multiset{}
    else
      var n := |msgs| - 1;
      NonEmptyOf(msgs[..n]) + (if msgs[n].body != [] then multiset{msgs[n]} else multiset{})
  }

  lemma {:induction false} NonEmptyCounted(start: nat -> nat, w: WorkerThread, inputs: seq<I.Input>)
    requires LifeOf(start, w, inputs)
    ensures I.NonEmpty(inputs) == |NonEmptyProcessed(w)|
    decreases |inputs|
  {
    if inputs != [] {
      var n := |inputs| - 1;
      var v := w.(processed := w.processed[..n]);
      assert LifeOf(start, v, inputs[..n]);
      NonEmptyCounted(start, v, inputs[..n]);
    }
  }

  lemma {:induction false} CountsAreProcessed(start: nat -> nat, ws: seq<WorkerThread>, lives: seq<seq<I.Input>>)
    requires LivesOf(start, ws, lives)
    ensures Sum(Counts(lives)) == |Total(ws, NonEmptyProcessed)|
    decreases |ws|
  {
    hide LifeOf, I.NonEmpty, NonEmptyProcessed;
    if ws != [] {
      var n := |ws| - 1;
      assert LifeOf(start, ws[n], lives[n]);
      CountsAreProcessed(start, ws[..n], lives[..n]);
      SumAppend(Counts(lives[..n]), I.NonEmpty(lives[n]));
      NonEmptyCounted(start, ws[n], lives[n]);
    }
  }

  /** So many selections at modulus m are possible among n candidates counted by w independent counters. */
  predicate WithinBound(n: nat, w: nat, selected: int, m: int) {
    (m == 1 ==> selected == n) && (m >= 2 ==> n - w <= m * selected <= n + w * (m - 2))
  }

  /** Report bound over any schedule: of the non-empty messages processed by all worker incarnations,
      the number that became records is fixed within one per worker. */
  lemma ReportBound(c: Config, s: State, start: nat -> nat, lives: seq<seq<I.Input>>, hostname: string)
    requires Reachable(c, s) && LivesOf(start, s.workers, lives) && c.reportModulus >= 1
    ensures WithinBound(|Total(s.workers, NonEmptyProcessed)|, |s.workers|, Writes(hostname, c.reportModulus, lives),
                        c.reportModulus)
  {
    forall j | 0 <= j < |lives| ensures I.Life(hostname, c.reportModulus, lives[j]).Alive? {
      WorkersLive(c, s, start, lives, hostname, j);
    }
    hide *;
    WritesAreSelected(hostname, c.reportModulus, lives);
    CountsAreProcessed(start, s.workers, lives);
    LivesLength(start, s.workers, lives);
    BoundOf(Counts(lives), |Total(s.workers, NonEmptyProcessed)|, |s.workers|,
            Writes(hostname, c.reportModulus, lives), c.reportModulus);
  }

  lemma BoundOf(counts: seq<nat>, n: nat, w: nat, selected: int, m: int)
    requires m >= 1 && Sum(counts) == n && |counts| == w && SelectedTotal(counts, m) == selected
    ensures WithinBound(n, w, selected, m)
  {
    SelectedTotalBounds(counts, m);
    hide Sum, SelectedTotal;
  }

  lemma LivesLength(start: nat -> nat, ws: seq<WorkerThread>, lives: seq<seq<I.Input>>)
    requires LivesOf(start, ws, lives)
    ensures |Counts(lives)| == |lives| == |ws|
  {
  }
}
