/** A measure that every step but an endless poller's tick decreases, and what it gives every maximal run. */
module Termination {
  import opened Pipeline
  import opened Safety
  import opened Conservation

  // ---- The measure ----

  function SumOf<T>(xs: seq<T>, f: T -> nat): nat {
    if xs == [] then 0 else SumOf(xs[..|xs| - 1], f) + f(xs[|xs| - 1])
  }

  lemma {:induction false} SumUpdate<T>(xs: seq<T>, f: T -> nat, i: nat, x: T)
    requires i < |xs|
    ensures SumOf(xs[i := x], f) + f(xs[i]) == SumOf(xs, f) + f(x)
  {
    var n := |xs| - 1;
    if i == n {
      assert xs[i := x][..n] == xs[..n];
    } else {
      SumUpdate(xs[..n], f, i, x);
      assert xs[i := x][..n] == xs[..n][i := x];
    }
  }

  function PollsLeft(c: Config, s: State): nat {
    if c.maxLoops <= 0 || s.loops > c.maxLoops then 0 else c.maxLoops + 1 - s.loops
  }

  function PhasesLeft(pc: PollerPC): nat {
    match pc
    case LoopTop => 9
    case StartInetdiagers(_) => 8
    case SendRequest => 7
    case StartNetlinkers(_) => 6
    case AwaitDone => 5
    case AwaitNetlinkers => 4
    case CloseChannel(_) => 3
    case AwaitInetdiagers(_) => 2
    case AwaitTick => 1
    case Finished => 0
  }

  function SpawnsLeft(c: Config, pc: PollerPC): nat {
    match pc
    case StartInetdiagers(n) => if n < c.inetdiagers then c.inetdiagers - n else 0
    case StartNetlinkers(n) => if n < c.netlinkers then c.netlinkers - n else 0
    case _ => 0
  }

  function NetlinkerWork(n: NetlinkerThread): nat {
    match n.phase
    case Receiving => 1
    case Acting(script) => 2 + |script|
    case Gone => 0
  }

  function ChannelWork(ch: Channel): nat {
    2 * |ch.buf|
  }

  function WorkerWork(w: WorkerThread): nat {
    match w.phase
    case Holding(_) => 2
    case Idle => 1
    case Left => 0
  }

  datatype Rank = Rank(alive: nat, polls: nat, phases: nat, spawns: nat, packets: nat, sends: nat, backlog: nat)

  function RankOf(c: Config, s: State): Rank {
    Rank(if s.crash == Alive then 1 else 0, PollsLeft(c, s), PhasesLeft(s.pc), SpawnsLeft(c, s.pc), |s.socket|,
         SumOf(s.netlinkers, NetlinkerWork), SumOf(s.chans, ChannelWork) + SumOf(s.workers, WorkerWork))
  }

  /** The lexicographic order. */
  predicate Below(a: Rank, b: Rank) {
    a.alive < b.alive || (a.alive == b.alive && (
      a.polls < b.polls || (a.polls == b.polls && (
        a.phases < b.phases || (a.phases == b.phases && (
          a.spawns < b.spawns || (a.spawns == b.spawns && (
            a.packets < b.packets || (a.packets == b.packets && (
              a.sends < b.sends || (a.sends == b.sends && a.backlog < b.backlog)))))))))))
  }

  // ---- Every step descends ----

  /** An endless poller starts its next round. */
  predicate Tick(s: State, t: State) {
    s.pc == AwaitTick && t.pc == LoopTop
  }

  lemma PollerDescends(c: Config, s: State)
    requires CountsFit(c, s) && s.crash == Alive && PollerReady(s)
    ensures var t := PollerNext(c, s);
            Below(RankOf(c, t), RankOf(c, s)) || (c.maxLoops == 0 && Tick(s, t))
    ensures !Tick(s, PollerNext(c, s)) ==> PollerNext(c, s).loops == s.loops
    ensures Tick(s, PollerNext(c, s)) ==> PollerNext(c, s).loops == s.loops + 1
  {
    hide SumOf;
  }

  /** A netlinker's step ends the wait for DONE, takes a packet, or does one of the things it has to do. */
  predicate NetlinkerProgress(s: State, t: State, i: nat) {
    && i < |s.netlinkers| && |t.netlinkers| == |s.netlinkers| && t.netlinkers == s.netlinkers[i := t.netlinkers[i]]
    && (t.loops == s.loops && s.crash == Alive)
    && (|| t.crash != Alive
        || (s.pc == AwaitDone && t.pc == AwaitNetlinkers)
        || (t.pc == s.pc && |t.socket| < |s.socket|)
        || (t.pc == s.pc && t.socket == s.socket && NetlinkerWork(t.netlinkers[i]) < NetlinkerWork(s.netlinkers[i])))
  }

  lemma NetlinkerProgresses(c: Config, s: State, e: Event)
    requires Enabled(c, s, e) && NetlinkerEvent(e)
    ensures NetlinkerProgress(s, Exec(c, s, e), NetlinkerOf(e))
  {
    hide Yields, Sends;
  }

  lemma NetlinkerDescends(c: Config, s: State, e: Event)
    requires Enabled(c, s, e) && NetlinkerEvent(e)
    ensures Below(RankOf(c, Exec(c, s, e)), RankOf(c, s))
  {
    var t, i := Exec(c, s, e), NetlinkerOf(e);
    NetlinkerProgresses(c, s, e);
    hide Enabled, Exec;
    SumUpdate(s.netlinkers, NetlinkerWork, i, t.netlinkers[i]);
    hide SumOf, NetlinkerWork;
  }

  lemma HandoffDescends(c: Config, s: State, e: Event)
    requires Enabled(c, s, e) && e.Handoff?
    ensures Below(RankOf(c, Exec(c, s, e)), RankOf(c, s))
  {
    var t := Exec(c, s, e);
    SumUpdate(s.netlinkers, NetlinkerWork, e.i, t.netlinkers[e.i]);
    hide SumOf;
  }

  lemma WorkerDescends(c: Config, s: State, e: Event)
    requires Enabled(c, s, e) && WorkerEvent(e)
    ensures Below(RankOf(c, Exec(c, s, e)), RankOf(c, s))
  {
    var t := Exec(c, s, e);
    hide MessagePanics;
    SumUpdate(s.workers, WorkerWork, e.j, t.workers[e.j]);
    if e.Dequeue? {
      var g := s.workers[e.j].ch;
      SumUpdate(s.chans, ChannelWork, g, t.chans[g]);
    }
    hide SumOf;
  }

  /** Every step of every reachable state lowers the measure, save the tick of a poller that loops for ever. */
  lemma StepDescends(c: Config, s: State, t: State)
    requires Fits(c, s) && Next(c, s, t)
    ensures Below(RankOf(c, t), RankOf(c, s)) || (c.maxLoops == 0 && Tick(s, t))
    ensures t.loops == if Tick(s, t) then s.loops + 1 else s.loops
  {
    var e :| Enabled(c, s, e) && t == Exec(c, s, e);
    if e == PollerStep {
      PollerStepDescends(c, s, t);
    } else {
      OthersKeepLoops(c, s, e);
      if e.Handoff? {
        HandoffDescends(c, s, e);
      } else if WorkerEvent(e) {
        WorkerDescends(c, s, e);
      } else {
        NetlinkerDescends(c, s, e);
      }
    }
    hide Below, RankOf, PollerNext, Fits, Enabled, Exec, Tick;
  }

  lemma OthersKeepLoops(c: Config, s: State, e: Event)
    requires Enabled(c, s, e) && e != PollerStep
    ensures Exec(c, s, e).loops == s.loops && !Tick(s, Exec(c, s, e))
  {
    hide Yields, Sends, MessagePanics;
  }

  lemma PollerStepDescends(c: Config, s: State, t: State)
    requires Fits(c, s) && Enabled(c, s, PollerStep) && t == Exec(c, s, PollerStep)
    ensures Below(RankOf(c, t), RankOf(c, s)) || (c.maxLoops == 0 && Tick(s, t))
    ensures t.loops == if Tick(s, t) then s.loops + 1 else s.loops
  {
    PollerDescends(c, s);
    hide Below, RankOf;
  }

  // ---- Maximal runs ----

  /** The program steps as long as it can, in any order; at the end it stays where it is. */
  ghost predicate IsMaximalRun(c: Config, run: nat -> State) {
    && run(0) == INIT
    && forall k: nat :: StepOrEnd(c, run(k), run(k + 1))
  }

  ghost predicate StepOrEnd(c: Config, s: State, t: State) {
    if CanStep(c, s) then Next(c, s, t) else t == s
  }

  lemma {:induction false} EveryStateReachable(c: Config, run: nat -> State, k: nat)
    requires IsMaximalRun(c, run)
    ensures Reachable(c, run(k))
  {
    hide StepOrEnd, Reachable;
    if k == 0 {
      InitReachable(c);
    } else {
      EveryStateReachable(c, run, k - 1);
      assert StepOrEnd(c, run(k - 1), run(k - 1 + 1));
      OneMoreReachable(c, run(k - 1), run(k));
    }
  }

  lemma InitReachable(c: Config)
    ensures Reachable(c, INIT)
  {
    assert IsRun(c, [INIT]);
  }

  lemma OneMoreReachable(c: Config, s: State, t: State)
    requires Reachable(c, s) && StepOrEnd(c, s, t)
    ensures Reachable(c, t)
  {
    hide Next, CanStep;
    if CanStep(c, s) {
      var run: seq<State> :| IsRun(c, run) && run[|run| - 1] == s;
      var longer := run + [t];
      forall k | 0 <= k < |longer| - 1 ensures Next(c, longer[k], longer[k + 1]) {
        if k < |run| - 1 { assert longer[k] == run[k] && longer[k + 1] == run[k + 1]; }
      }
      assert IsRun(c, longer);
    }
  }

  lemma Follow(c: Config, s: State, e: Event)
    requires Reachable(c, s) && Enabled(c, s, e)
    ensures Reachable(c, Exec(c, s, e))
  {
    assert CanStep(c, s);
    assert Next(c, s, Exec(c, s, e));
    hide Reachable, Enabled, Exec;
    OneMoreReachable(c, s, Exec(c, s, e));
  }

  /** From any point a maximal run ends, or ticks after finitely many steps of the same round. */
  lemma {:induction false} NextTick(c: Config, run: nat -> State, k: nat, r: Rank) returns (n: nat)
    requires IsMaximalRun(c, run) && r == RankOf(c, run(k))
    ensures n >= k && run(n).loops == run(k).loops
    ensures !CanStep(c, run(n)) || (CanStep(c, run(n)) && Tick(run(n), run(n + 1)))
    decreases r.alive, r.polls, r.phases, r.spawns, r.packets, r.sends, r.backlog
  {
    hide Tick, RankOf, CanStep, Next;
    n := k;
    assert StepOrEnd(c, run(k), run(k + 1));
    if CanStep(c, run(k)) && !Tick(run(k), run(k + 1)) {
      EveryStateReachable(c, run, k);
      ReachableIsSafe(c, run(k));
      StepDescends(c, run(k), run(k + 1));
      n := NextTick(c, run, k + 1, RankOf(c, run(k + 1)));
    }
  }

  /** With a loop limit every maximal run comes to its end, whatever the kernel sends. */
  lemma {:induction false} RunEnds(c: Config, run: nat -> State, k: nat, r: Rank) returns (n: nat)
    requires IsMaximalRun(c, run) && c.maxLoops != 0 && r == RankOf(c, run(k))
    ensures n >= k && !CanStep(c, run(n))
    decreases r.alive, r.polls, r.phases, r.spawns, r.packets, r.sends, r.backlog
  {
    hide Tick, RankOf, CanStep, Next;
    n := k;
    assert StepOrEnd(c, run(k), run(k + 1));
    if CanStep(c, run(k)) {
      EveryStateReachable(c, run, k);
      ReachableIsSafe(c, run(k));
      StepDescends(c, run(k), run(k + 1));
      n := RunEnds(c, run, k + 1, RankOf(c, run(k + 1)));
    }
  }
}
