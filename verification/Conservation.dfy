/** No message selected by a netlinker is lost or doubled, whatever the kernel sends and however the
    threads interleave. */
module Conservation {
  import opened Misc
  import opened Netlinker
  import opened Pipeline
  import opened Safety

  /** Where the selected messages are: unsent in a netlinker, in a channel, in a worker's hands, or processed. */
  function Whereabouts(s: State): multiset<Msg> {
    Total(s.netlinkers, Pending) + Total(s.chans, Queued) + Total(s.workers, Held) + Total(s.workers, Processed)
  }

  predicate Conserved(s: State) {
    s.selected == Whereabouts(s)
  }

  lemma SendsStep(stamp: nat, script: seq<Action>)
    requires script != []
    ensures Sends(stamp, script)
      == Sends(stamp, script[1..]) + (if script[0].Send? then multiset{Msg(stamp, script[0].body)} else multiset{})
  {
  }

  // ---- One thread or channel moves ----

  lemma NetlinkerMoved(s: State, t: State, i: nat)
    requires i < |s.netlinkers| && |t.netlinkers| == |s.netlinkers|
    requires t.netlinkers == s.netlinkers[i := t.netlinkers[i]]
    ensures Total(t.netlinkers, Pending) + Pending(s.netlinkers[i]) == Total(s.netlinkers, Pending)
            + Pending(t.netlinkers[i])
  {
    TotalUpdate(s.netlinkers, Pending, i, t.netlinkers[i]);
  }

  lemma ChannelMoved(s: State, t: State, g: nat)
    requires g < |s.chans| && |t.chans| == |s.chans| && t.chans == s.chans[g := t.chans[g]]
    ensures Total(t.chans, Queued) + Queued(s.chans[g]) == Total(s.chans, Queued) + Queued(t.chans[g])
  {
    TotalUpdate(s.chans, Queued, g, t.chans[g]);
  }

  lemma WorkerMoved(s: State, t: State, j: nat)
    requires j < |s.workers| && |t.workers| == |s.workers| && t.workers == s.workers[j := t.workers[j]]
    ensures Total(t.workers, Held) + Held(s.workers[j]) == Total(s.workers, Held) + Held(t.workers[j])
    ensures Total(t.workers, Processed) + Processed(s.workers[j]) == Total(s.workers, Processed)
            + Processed(t.workers[j])
  {
    TotalUpdate(s.workers, Held, j, t.workers[j]);
    TotalUpdate(s.workers, Processed, j, t.workers[j]);
  }

  /** Messages handed from one place to another stay in the sum; `news` ones have just been selected. */
  lemma Balance(s: State, t: State, news: multiset<Msg>,
                p: multiset<Msg>, p1: multiset<Msg>, q: multiset<Msg>, q1: multiset<Msg>,
                h: multiset<Msg>, h1: multiset<Msg>, d: multiset<Msg>, d1: multiset<Msg>)
    requires Conserved(s) && t.selected == s.selected + news
    requires Total(t.netlinkers, Pending) + p == Total(s.netlinkers, Pending) + p1
    requires Total(t.chans, Queued) + q == Total(s.chans, Queued) + q1
    requires Total(t.workers, Held) + h == Total(s.workers, Held) + h1
    requires Total(t.workers, Processed) + d == Total(s.workers, Processed) + d1
    requires p + q + h + d + news == p1 + q1 + h1 + d1
    ensures Conserved(t)
  {
    hide Total;
    BalanceOf(s.selected, news,
              Total(s.netlinkers, Pending), Total(s.chans, Queued), Total(s.workers, Held), Total(s.workers, Processed),
              Total(t.netlinkers, Pending), Total(t.chans, Queued), Total(t.workers, Held), Total(t.workers, Processed),
              p, p1, q, q1, h, h1, d, d1);
  }

  lemma BalanceOf<T>(sum: multiset<T>, news: multiset<T>,
                     a: multiset<T>, b: multiset<T>, c: multiset<T>, e: multiset<T>,
                     a1: multiset<T>, b1: multiset<T>, c1: multiset<T>, e1: multiset<T>,
                     p: multiset<T>, p1: multiset<T>, q: multiset<T>, q1: multiset<T>,
                     h: multiset<T>, h1: multiset<T>, d: multiset<T>, d1: multiset<T>)
    requires sum == a + b + c + e
    requires a1 + p == a + p1 && b1 + q == b + q1 && c1 + h == c + h1 && e1 + d == e + d1
    requires p + q + h + d + news == p1 + q1 + h1 + d1
    ensures sum + news == a1 + b1 + c1 + e1
  {
    forall x: T ensures (sum + news)[x] == (a1 + b1 + c1 + e1)[x] {
      assert (a1 + p)[x] == (a + p1)[x] && (b1 + q)[x] == (b + q1)[x];
      assert (c1 + h)[x] == (c + h1)[x] && (e1 + d)[x] == (e + d1)[x];
      assert (p + q + h + d + news)[x] == (p1 + q1 + h1 + d1)[x];
    }
  }

  const NO: multiset<Msg> := multiset{}

  lemma NoneAdded()
    ensures forall x: multiset<Msg> :: NO + x == x && x + NO == x
  {
  }

  lemma NetlinkerConserves(s: State, t: State, i: nat, news: multiset<Msg>)
    requires Conserved(s) && t.selected == s.selected + news && t.chans == s.chans && t.workers == s.workers
    requires i < |s.netlinkers| && |t.netlinkers| == |s.netlinkers|
    requires t.netlinkers == s.netlinkers[i := t.netlinkers[i]]
    requires Pending(t.netlinkers[i]) == Pending(s.netlinkers[i]) + news
    ensures Conserved(t)
  {
    NetlinkerMoved(s, t, i);
    hide Total, Pending, Conserved;
    Balance(s, t, news, Pending(s.netlinkers[i]), Pending(t.netlinkers[i]), NO, NO, NO, NO, NO, NO);
  }

  lemma QuietConserves(c: Config, s: State, e: Event)
    requires Conserved(s) && Enabled(c, s, e) && (e.TakeDone? || e.Timeout? || e.NextPacket?)
    ensures Conserved(Exec(c, s, e))
  {
    hide Yields, Conserved;
    NetlinkerConserves(s, Exec(c, s, e), NetlinkerOf(e), NO);
  }

  lemma ReceiveConserves(c: Config, s: State, e: Event)
    requires Conserved(s) && Enabled(c, s, e) && e.Receive?
    ensures Conserved(Exec(c, s, e))
  {
    hide Yields, Conserved, Sends;
    NetlinkerConserves(s, Exec(c, s, e), e.i, Sends(s.netlinkers[e.i].stamp, e.script));
  }

  /** A netlinker hands its next message to a channel. */
  lemma SendConserves(s: State, t: State, i: nat, g: nat)
    requires Conserved(s) && t.selected == s.selected && t.workers == s.workers
    requires i < |s.netlinkers| && |t.netlinkers| == |s.netlinkers|
    requires t.netlinkers == s.netlinkers[i := t.netlinkers[i]]
    requires g < |s.chans| && |t.chans| == |s.chans| && t.chans == s.chans[g := t.chans[g]]
    requires Pending(s.netlinkers[i]) + Queued(s.chans[g]) == Pending(t.netlinkers[i]) + Queued(t.chans[g])
    ensures Conserved(t)
  {
    NetlinkerMoved(s, t, i);
    ChannelMoved(s, t, g);
    hide Total, Pending, Queued, Conserved;
    NoneAdded();
    Balance(s, t, NO, Pending(s.netlinkers[i]), Pending(t.netlinkers[i]), Queued(s.chans[g]), Queued(t.chans[g]), NO,
            NO, NO, NO);
  }

  lemma EnqueueConserves(c: Config, s: State, e: Event)
    requires Conserved(s) && Enabled(c, s, e) && e.Enqueue?
    ensures Conserved(Exec(c, s, e))
  {
    var t, g := Exec(c, s, e), s.netlinkers[e.i].ch;
    hide Conserved;
    if s.chans[g].closed {
      StillConserved(s, t);
    } else {
      SendsStep(s.netlinkers[e.i].stamp, s.netlinkers[e.i].phase.script);
      hide Sends;
      SendConserves(s, t, e.i, g);
    }
  }

  lemma StillConserved(s: State, t: State)
    requires Conserved(s) && t == s.(crash := t.crash)
    ensures Conserved(t)
  {
    hide Total;
  }

  lemma HandoffConserves(c: Config, s: State, e: Event)
    requires Conserved(s) && Enabled(c, s, e) && e.Handoff?
    ensures Conserved(Exec(c, s, e))
  {
    var t := Exec(c, s, e);
    hide Conserved;
    NetlinkerMoved(s, t, e.i);
    WorkerMoved(s, t, e.j);
    SendsStep(s.netlinkers[e.i].stamp, s.netlinkers[e.i].phase.script);
    hide Total, Sends;
    var w, w1 := s.workers[e.j], t.workers[e.j];
    NoneAdded();
    Balance(s, t, NO, Pending(s.netlinkers[e.i]), Pending(t.netlinkers[e.i]), NO, NO, Held(w), Held(w1), Processed(w),
            Processed(w1));
  }

  /** A worker's message goes from its hands to the processed ones. */
  lemma WorkConserves(s: State, t: State, j: nat)
    requires Conserved(s) && t.selected == s.selected && t.netlinkers == s.netlinkers && t.chans == s.chans
    requires j < |s.workers| && |t.workers| == |s.workers| && t.workers == s.workers[j := t.workers[j]]
    requires Held(s.workers[j]) + Processed(s.workers[j]) == Held(t.workers[j]) + Processed(t.workers[j])
    ensures Conserved(t)
  {
    WorkerMoved(s, t, j);
    var w, w1 := s.workers[j], t.workers[j];
    hide Total, Held, Processed, Conserved;
    NoneAdded();
    Balance(s, t, NO, NO, NO, NO, NO, Held(w), Held(w1), Processed(w), Processed(w1));
  }

  lemma LeaveConserves(c: Config, s: State, e: Event)
    requires Conserved(s) && Enabled(c, s, e) && e.Leave?
    ensures Conserved(Exec(c, s, e))
  {
    var t := Exec(c, s, e);
    hide Conserved;
    WorkConserves(s, t, e.j);
  }

  lemma ProcessMoves(c: Config, s: State, e: Event)
    requires Enabled(c, s, e) && e.Process?
    ensures var t := Exec(c, s, e);
            t == s.(crash := t.crash)
            || (&& t == s.(workers := t.workers) && e.j < |s.workers| && s.workers[e.j].phase.Holding?
                && (var w := s.workers[e.j];
                    t.workers == s.workers[e.j := WorkerThread(w.ch, Idle, w.processed + [w.phase.msg])]))
  {
    hide MessagePanics;
  }

  lemma ProcessConserves(c: Config, s: State, e: Event)
    requires Conserved(s) && Enabled(c, s, e) && e.Process?
    ensures Conserved(Exec(c, s, e))
  {
    var t := Exec(c, s, e);
    ProcessMoves(c, s, e);
    hide Exec, Enabled, Conserved;
    if t == s.(crash := t.crash) {
      StillConserved(s, t);
    } else {
      assert |t.workers| == |s.workers| && t.workers == s.workers[e.j := t.workers[e.j]];
      WorkConserves(s, t, e.j);
    }
  }

  /** A worker takes a message from a channel. */
  lemma TakeConserves(s: State, t: State, j: nat, g: nat)
    requires Conserved(s) && t.selected == s.selected && t.netlinkers == s.netlinkers
    requires j < |s.workers| && |t.workers| == |s.workers| && t.workers == s.workers[j := t.workers[j]]
    requires g < |s.chans| && |t.chans| == |s.chans| && t.chans == s.chans[g := t.chans[g]]
    requires Queued(s.chans[g]) + Held(s.workers[j]) == Queued(t.chans[g]) + Held(t.workers[j])
    requires Processed(s.workers[j]) == Processed(t.workers[j])
    ensures Conserved(t)
  {
    WorkerMoved(s, t, j);
    ChannelMoved(s, t, g);
    var w, w1 := s.workers[j], t.workers[j];
    hide Total, Held, Processed, Queued, Conserved;
    NoneAdded();
    Balance(s, t, NO, NO, NO, Queued(s.chans[g]), Queued(t.chans[g]), Held(w), Held(w1), Processed(w), Processed(w1));
  }

  lemma DequeueMoves(c: Config, s: State, e: Event)
    requires Enabled(c, s, e) && e.Dequeue?
    ensures var t := Exec(c, s, e);
            && t == s.(workers := t.workers, chans := t.chans, trace := t.trace)
            && e.j < |s.workers| && s.workers[e.j].phase == Idle
            && (var w := s.workers[e.j];
                && w.ch < |s.chans| && s.chans[w.ch].buf != []
                && (var ch := s.chans[w.ch];
                    && t.workers == s.workers[e.j := WorkerThread(w.ch, Holding(ch.buf[0]), w.processed)]
                    && t.chans == s.chans[w.ch := Channel(ch.buf[1..], ch.closed)]))
  {
  }

  lemma DequeueConserves(c: Config, s: State, e: Event)
    requires Conserved(s) && Enabled(c, s, e) && e.Dequeue?
    ensures Conserved(Exec(c, s, e))
  {
    var t := Exec(c, s, e);
    DequeueMoves(c, s, e);
    var g := s.workers[e.j].ch;
    hide Exec, Enabled, Conserved;
    var b := s.chans[g].buf;
    assert b == [b[0]] + b[1..];
    assert |t.workers| == |s.workers| && t.workers == s.workers[e.j := t.workers[e.j]];
    assert |t.chans| == |s.chans| && t.chans == s.chans[g := t.chans[g]];
    TakeConserves(s, t, e.j, g);
  }

  // ---- The poller ----

  lemma PollerConserves(c: Config, s: State)
    requires Structured(c, s) && Conserved(s) && PollerReady(s)
    ensures Conserved(PollerNext(c, s))
  {
    var t := PollerNext(c, s);
    assert s.pc.SendRequest? ==> AllGone(s.netlinkers);
    hide Structured, Conserved, MaxLoopsOrForEver;
    if s.pc.SendRequest? {
      TotalEmpty(s.netlinkers, Pending);
      TotalEmpty(t.netlinkers, Pending);
    } else {
      NetlinkersSame(c, s);
    }
    ChannelsSame(c, s);
    WorkersSame(c, s);
    hide Total, PollerNext;
    NoneAdded();
    Balance(s, t, NO, NO, NO, NO, NO, NO, NO, NO, NO);
  }

  lemma NetlinkersSame(c: Config, s: State)
    requires PollerReady(s) && !s.pc.SendRequest?
    ensures Total(PollerNext(c, s).netlinkers, Pending) == Total(s.netlinkers, Pending)
    ensures PollerNext(c, s).selected == s.selected
  {
    if s.pc.StartNetlinkers? {
      TotalAppend(s.netlinkers, Pending, NetlinkerThread(Newest(s), s.loops, Receiving));
    }
    hide Total;
  }

  lemma Cancel(a: multiset<Msg>, b: multiset<Msg>, x: multiset<Msg>)
    requires a + x == b + x
    ensures a == b
  {
    assert a == (a + x) - x && b == (b + x) - x;
  }

  lemma ChannelsSame(c: Config, s: State)
    requires PollerReady(s)
    ensures Total(PollerNext(c, s).chans, Queued) == Total(s.chans, Queued)
    ensures PollerNext(c, s).selected == s.selected
  {
    hide MaxLoopsOrForEver;
    var t := PollerNext(c, s);
    assert t.selected == s.selected;
    if s.pc.LoopTop? {
      assert t.chans == s.chans || t.chans == s.chans + [Channel([], false)];
      TotalAppend(s.chans, Queued, Channel([], false));
    } else if s.pc.CloseChannel? && Open(s) {
      var g := Newest(s);
      assert |t.chans| == |s.chans| && t.chans == s.chans[g := t.chans[g]] && Queued(t.chans[g]) == Queued(s.chans[g]);
      hide PollerNext;
      ChannelMoved(s, t, g);
      hide Total;
      Cancel(Total(t.chans, Queued), Total(s.chans, Queued), Queued(s.chans[g]));
    }
  }

  lemma WorkersSame(c: Config, s: State)
    requires PollerReady(s)
    ensures Total(PollerNext(c, s).workers, Held) == Total(s.workers, Held)
    ensures Total(PollerNext(c, s).workers, Processed) == Total(s.workers, Processed)
  {
    if s.pc.StartInetdiagers? {
      TotalAppend(s.workers, Held, WorkerThread(Newest(s), Idle, []));
      TotalAppend(s.workers, Processed, WorkerThread(Newest(s), Idle, []));
    }
    hide Total;
  }

  /** Every step keeps every selected message in exactly one place. */
  lemma ExecConserves(c: Config, s: State, e: Event)
    requires Fits(c, s) && Conserved(s) && Enabled(c, s, e)
    ensures Conserved(Exec(c, s, e))
  {
    if e == PollerStep {
      PollerConserves(c, s);
    } else if e.TakeDone? || e.Timeout? || e.NextPacket? {
      QuietConserves(c, s, e);
    } else if e.Receive? {
      ReceiveConserves(c, s, e);
    } else if e.Enqueue? {
      EnqueueConserves(c, s, e);
    } else if e.Handoff? {
      HandoffConserves(c, s, e);
    } else if e.Dequeue? {
      DequeueConserves(c, s, e);
    } else if e.Process? {
      ProcessConserves(c, s, e);
    } else if e.Leave? {
      LeaveConserves(c, s, e);
    } else {
      StillConserved(s, Exec(c, s, e));
    }
    hide Conserved, Yields, MessagePanics, Structured;
  }

  // ---- Whole runs ----

  ghost predicate Reachable(c: Config, s: State) {
    exists run: seq<State> :: IsRun(c, run) && run[|run| - 1] == s
  }

  lemma PathTo(c: Config, s: State) returns (path: seq<State>)
    requires Reachable(c, s)
    ensures IsRun(c, path) && path[|path| - 1] == s
  {
    hide Next;
    path :| IsRun(c, path) && path[|path| - 1] == s;
  }

  lemma {:induction false} RunsAreSafe(c: Config, run: seq<State>)
    requires IsRun(c, run)
    ensures Fits(c, run[|run| - 1]) && Conserved(run[|run| - 1])
    decreases |run|
  {
    hide Next, Fits, Conserved;
    var n := |run| - 1;
    if n == 0 {
      InitFits(c);
      InitConserved();
    } else {
      RunPrefix(c, run);
      RunsAreSafe(c, run[..n]);
      hide *;
      StepIsSafe(c, run[n - 1], run[n]);
    }
  }

  lemma InitConserved()
    ensures Conserved(INIT)
  {
  }

  lemma RunPrefix(c: Config, run: seq<State>)
    requires IsRun(c, run) && |run| > 1
    ensures var n := |run| - 1; IsRun(c, run[..n]) && Next(c, run[n - 1], run[n]) && run[..n][n - 1] == run[n - 1]
  {
    hide Next;
    var before := run[..|run| - 1];
    assert forall k :: 0 <= k < |before| ==> before[k] == run[k];
  }

  lemma StepIsSafe(c: Config, s: State, t: State)
    requires Fits(c, s) && Conserved(s) && Next(c, s, t)
    ensures Fits(c, t) && Conserved(t)
  {
    var e :| Enabled(c, s, e) && t == Exec(c, s, e);
    ExecKeepsFits(c, s, e);
    ExecConserves(c, s, e);
  }

  lemma ReachableIsSafe(c: Config, s: State)
    requires Reachable(c, s)
    ensures Fits(c, s) && Conserved(s)
  {
    hide Next, Fits, Conserved;
    var run: seq<State> :| IsRun(c, run) && run[|run| - 1] == s;
    RunsAreSafe(c, run);
  }

  /** Channel life cycle, with or without ShutdownWorkers: no send on a closed channel, no second close; workersStarted
      holds exactly while the newest channel is open, start-up and shutdown aside; and the workers of a closed
      channel have left before the poller moves on, so before the next incarnation starts. */
  lemma ChannelLifeCycle(c: Config, s: State)
    requires Reachable(c, s)
    ensures s.crash != SendOnClosed && s.crash != CloseOfClosed
    ensures s.crash == Alive && !s.pc.StartInetdiagers? && !s.pc.AwaitInetdiagers? ==> (s.workersStarted <==> Open(s))
    ensures s.crash == Alive ==> forall g :: 0 <= g < Newest(s) ==> s.chans[g].closed
    ensures s.crash == Alive ==>
      forall j :: 0 <= j < |s.workers| ==>
        s.workers[j].ch < |s.chans|
        && (s.workers[j].ch < Newest(s) || (s.chans[s.workers[j].ch].closed && !s.pc.AwaitInetdiagers?) ==>
            s.workers[j].phase == Left)
  {
    ReachableIsSafe(c, s);
    hide Reachable, Conserved, CountsFit, NetlinkersFit, ChannelsServed;
  }

  /** Exactly once: in every reachable state each selected message is in exactly one place. */
  lemma ExactlyOnce(c: Config, s: State)
    requires Reachable(c, s)
    ensures s.selected == Total(s.netlinkers, Pending) + Total(s.chans, Queued) + Total(s.workers, Held)
            + Total(s.workers, Processed)
  {
    ReachableIsSafe(c, s);
    hide Fits, Total;
  }

  /** All workers of all incarnations have left, as cleanWorkerShutdown waits for. */
  predicate ShutDown(s: State) {
    s.pc == Finished || (s.pc == AwaitTick && !s.workersStarted) || (s.pc == LoopTop && !s.workersStarted)
  }

  /** Once cleanWorkerShutdown has returned, every selected message has been processed, exactly once. */
  lemma ShutdownProcessesAll(c: Config, s: State)
    requires Reachable(c, s) && s.crash == Alive && ShutDown(s) && c.inetdiagers > 0
    ensures AllLeft(s.workers) && AllGone(s.netlinkers)
    ensures Total(s.netlinkers, Pending) == Total(s.chans, Queued) == Total(s.workers, Held) == multiset{}
    ensures s.selected == Total(s.workers, Processed)
  {
    ReachableIsSafe(c, s);
    hide Reachable;
    Drained(c, s);
    hide Fits;
    TotalEmpty(s.netlinkers, Pending);
    TotalEmpty(s.workers, Held);
    TotalEmpty(s.chans, Queued);
    hide Total;
  }

  lemma Drained(c: Config, s: State)
    requires Fits(c, s) && s.crash == Alive && ShutDown(s) && c.inetdiagers > 0
    ensures AllLeft(s.workers) && AllGone(s.netlinkers)
    ensures forall g :: 0 <= g < |s.chans| ==> s.chans[g] == Channel([], true)
  {
    assert AllLeft(s.workers);
    forall g | 0 <= g < |s.chans| ensures s.chans[g] == Channel([], true) {
      assert Served(s, g);
    }
  }
}
