/** When no poll can hang, and what every maximal run then achieves. */
module Liveness {
  import opened Misc
  import opened Netlinker
  import opened Pipeline
  import opened Safety
  import opened Conservation
  import opened Delivery
  import opened Progress
  import opened Termination
  import opened Unserved

  // ---- No panic ----

  /** No message the kernel sends kills a worker, and no modulus the poller. */
  ghost predicate Harmless(c: Config) {
    && c.happyModulus != 0
    && forall k: nat, i: nat :: MaxLoopsOrForEver(k, c.maxLoops) && i < |c.kernel(k)| ==>
      HarmlessScript(c, Acts(c, c.kernel(k)[i]))
  }

  predicate HarmlessScript(c: Config, script: seq<Action>) {
    forall i :: 0 <= i < |script| && script[i].Send? ==> !MessagePanics(c, script[i].body)
  }

  lemma {:induction false} SentMember(stamp: nat, script: seq<Action>, m: Msg)
    requires m in Sends(stamp, script)
    ensures m.stamp == stamp && exists i :: 0 <= i < |script| && script[i] == Send(m.body)
  {
    if script[0].Send? && m == Msg(stamp, script[0].body) {
    } else {
      SentMember(stamp, script[1..], m);
      var i :| 0 <= i < |script[1..]| && script[1..][i] == Send(m.body);
      assert script[i + 1] == Send(m.body);
    }
  }

  lemma {:induction false} RepliedMember(c: Config, stamp: nat, rs: seq<Reception>, m: Msg)
    requires m in ReplySends(c, stamp, rs)
    ensures m.stamp == stamp && exists i :: 0 <= i < |rs| && m in Sends(stamp, Acts(c, rs[i]))
  {
    hide Sends, Acts;
    if m in Sends(stamp, Acts(c, rs[0])) {
      SentStamp(stamp, Acts(c, rs[0]), m);
    } else {
      RepliedMember(c, stamp, rs[1..], m);
      var i :| 0 <= i < |rs[1..]| && m in Sends(stamp, Acts(c, rs[1..][i]));
      assert m in Sends(stamp, Acts(c, rs[i + 1]));
    }
  }

  lemma SentStamp(stamp: nat, script: seq<Action>, m: Msg)
    requires m in Sends(stamp, script)
    ensures m.stamp == stamp
  {
    SentMember(stamp, script, m);
  }

  /** A message answers the request it is stamped with. */
  lemma {:induction false} ExpectedMember(c: Config, n: nat, m: Msg)
    requires m in Expected(c, n)
    ensures m.stamp < n && m in ReplySends(c, m.stamp, c.kernel(m.stamp))
  {
    if m in ReplySends(c, n - 1, c.kernel(n - 1)) {
      RepliedMember(c, n - 1, c.kernel(n - 1), m);
    } else {
      ExpectedMember(c, n - 1, m);
    }
  }

  lemma ExpectedHarmless(c: Config, n: nat, m: Msg)
    requires Harmless(c) && m in Expected(c, n) && (n > 0 ==> MaxLoopsOrForEver(n - 1, c.maxLoops))
    ensures !MessagePanics(c, m.body)
  {
    hide MessagePanics, Acts;
    ExpectedMember(c, n, m);
    var rs := c.kernel(m.stamp);
    RepliedMember(c, m.stamp, rs, m);
    var i :| 0 <= i < |rs| && m in Sends(m.stamp, Acts(c, rs[i]));
    SentMember(m.stamp, Acts(c, rs[i]), m);
    assert HarmlessScript(c, Acts(c, rs[i]));
  }

  /** Workers only ever hold messages of replies to requests already sent. */
  lemma HeldIsExpected(c: Config, s: State, j: nat)
    requires Good(c, s) && s.crash == Alive && j < |s.workers| && s.workers[j].phase.Holding?
    ensures s.workers[j].phase.msg in Expected(c, s.requests)
    ensures s.requests > 0 ==> MaxLoopsOrForEver(s.requests - 1, c.maxLoops)
  {
    var m := s.workers[j].phase.msg;
    TotalMember(s.workers, Held, j);
    hide Total, Expected, ReplySends, DoneFits, ChannelsServed, ChannelsFit, WorkersFit, NetlinkersFit;
    assert m in Held(s.workers[j]);
    assert m in s.selected;
  }

  lemma ProcessSurvives(c: Config, s: State, j: nat)
    requires Harmless(c) && Good(c, s) && Enabled(c, s, Process(j))
    ensures Exec(c, s, Process(j)).crash == Alive
  {
    ProcessIs(c, s, j);
    HeldIsExpected(c, s, j);
    ExpectedHarmless(c, s.requests, s.workers[j].phase.msg);
    hide *;
  }

  lemma ProcessIs(c: Config, s: State, j: nat)
    requires Enabled(c, s, Process(j))
    ensures s.crash == Alive && j < |s.workers| && s.workers[j].phase.Holding?
    ensures !MessagePanics(c, s.workers[j].phase.msg.body) ==> Exec(c, s, Process(j)).crash == Alive
  {
    hide MessagePanics;
  }

  lemma StepSurvives(c: Config, s: State, t: State)
    requires GoodKernel(c) && Harmless(c) && Good(c, s) && Next(c, s, t)
    ensures t.crash == Alive
  {
    var e :| Enabled(c, s, e) && t == Exec(c, s, e);
    GoodParts(c, s);
    ExecKeepsFits(c, s, e);
    assert c.happyModulus != 0 by { hide Enabled, Exec, Good, GoodKernel; }
    hide *;
    if e.Process? {
      ProcessSurvives(c, s, e.j);
    } else {
      if e.NetlinkerPanic? { NetlinkersNeverPanic(c, s, e.i); }
      OthersSurvive(c, s, e);
    }
  }

  lemma GoodParts(c: Config, s: State)
    requires Good(c, s)
    ensures Fits(c, s) && (s.crash == Alive ==> DoneFits(c, s))
    ensures forall e :: Enabled(c, s, e) ==> s.crash == Alive
  {
    hide Fits, DoneFits, Conserved, Delivered;
  }

  lemma OthersSurvive(c: Config, s: State, e: Event)
    requires Enabled(c, s, e) && !e.Process? && !e.NetlinkerPanic? && Fits(c, Exec(c, s, e)) && c.happyModulus != 0
    ensures Exec(c, s, e).crash == Alive
  {
    hide Structured, ChannelsServed, Yields;
  }

  lemma {:induction false} NeverCrashes(c: Config, run: seq<State>)
    requires GoodKernel(c) && Harmless(c) && IsRun(c, run)
    ensures run[|run| - 1].crash == Alive
    decreases |run|
  {
    hide Next, GoodKernel, Harmless, Good;
    if |run| > 1 {
      var n := |run| - 1;
      RunPrefix(c, run);
      RunsAreGood(c, run[..n]);
      hide IsRun;
      StepSurvives(c, run[n - 1], run[n]);
    }
  }

  /** With well-formed replies nothing panics, and no channel is misused, in any interleaving. */
  lemma ReachableIsAlive(c: Config, s: State)
    requires GoodKernel(c) && Harmless(c) && Reachable(c, s)
    ensures s.crash == Alive
  {
    hide Next, GoodKernel, Harmless;
    var run: seq<State> :| IsRun(c, run) && run[|run| - 1] == s;
    NeverCrashes(c, run);
  }

  // ---- No deadlock ----

  lemma NotStuck(c: Config, s: State)
    requires Fits(c, s) && s.crash == Alive && DoneFits(c, s) && c.timeouts && c.patient && c.netlinkers > 0
    requires forall i: nat :: !Blocked(c, s, i)
    ensures !Stuck(c, s)
  {
    hide GoodReply, Ending, ChannelsFit, WorkersFit, ChannelsServed, CountsFit, WorkersQuiet, Blocked;
    if s.pc == AwaitDone {
      assert |s.netlinkers| == c.netlinkers;
      var i := SomeoneLives(c, s);
      assert !Over(c, s, i);
    } else if s.pc == AwaitNetlinkers && !AllGone(s.netlinkers) {
      var i: nat :| i < |s.netlinkers| && s.netlinkers[i].phase != Gone;
      assert CleanThread(s.netlinkers[i]);
      assert !Over(c, s, i);
    }
  }

  lemma SomeoneLives(c: Config, s: State) returns (i: nat)
    requires DoneFits(c, s) && s.pc == AwaitDone && c.patient && |s.netlinkers| > 0
    ensures i < |s.netlinkers| && s.netlinkers[i].phase != Gone
  {
    hide GoodReply, Ending, Clean;
    i := 0;
    if s.socket == [] {
      i :| HoldsDone(s.netlinkers, i);
    }
  }

  lemma NoneBlocked(c: Config, s: State, i: nat)
    requires GoodKernel(c) && Reachable(c, s) && s.crash == Alive && (c.inetdiagers > 0 || RoomForAll(c))
    ensures !Blocked(c, s, i)
  {
    hide Reachable, GoodKernel, RoomForAll;
    if c.inetdiagers > 0 {
      ReachableIsSafe(c, s);
      WorkersServe(c, s, i);
    } else {
      RoomLeft(c, s, i);
    }
  }

  lemma WorkersServe(c: Config, s: State, i: nat)
    requires Fits(c, s) && s.crash == Alive && c.inetdiagers > 0
    ensures !Blocked(c, s, i)
  {
    if Facing(s, i) {
      assert s.netlinkers[i].phase != Gone;
      assert PollUnderWay(s.pc);
      hide Served;
    }
  }

  /** Deadlock freedom: until the poller has finished some thread can step. */
  lemma DeadlockFree(c: Config, s: State)
    requires GoodKernel(c) && Reachable(c, s) && s.crash == Alive && s.pc != Finished
    requires c.timeouts && c.patient && c.netlinkers > 0 && (c.inetdiagers > 0 || RoomForAll(c))
    ensures CanStep(c, s)
  {
    ReachableIsGood(c, s);
    hide Reachable, CanStep, Stuck, Fits, DoneFits, Conserved, Delivered, GoodKernel, RoomForAll, Blocked;
    forall i: nat ensures !Blocked(c, s, i) { NoneBlocked(c, s, i); }
    NotStuck(c, s);
    NotStuckCanStep(c, s);
  }

  // ---- Maximal runs ----

  lemma AlwaysGood(c: Config, run: nat -> State, k: nat)
    requires GoodKernel(c) && Harmless(c) && IsMaximalRun(c, run)
    ensures Reachable(c, run(k)) && Good(c, run(k)) && run(k).crash == Alive
  {
    EveryStateReachable(c, run, k);
    ReachableIsGood(c, run(k));
    ReachableIsAlive(c, run(k));
  }

  /** Every maximal run of a limited poller finishes, and by then every message of every reply has been
      processed once. */
  lemma EveryRunDelivers(c: Config, run: nat -> State) returns (n: nat)
    requires GoodKernel(c) && Harmless(c) && c.timeouts && c.patient && c.netlinkers > 0 && c.inetdiagers > 0
    requires IsMaximalRun(c, run) && c.maxLoops != 0
    ensures run(n).pc == Finished && run(n).crash == Alive
    ensures run(n).requests == run(n).dones == if c.maxLoops < 0 then 0 else c.maxLoops + 1
    ensures Total(run(n).workers, Processed) == Expected(c, run(n).requests)
  {
    hide *;
    n := RunEnds(c, run, 0, RankOf(c, run(0)));
    AlwaysGood(c, run, n);
    if run(n).pc != Finished {
      DeadlockFree(c, run(n));
    }
    EverythingDelivered(c, run(n));
  }

  lemma AfterTick(c: Config, run: nat -> State, n: nat)
    requires IsMaximalRun(c, run) && CanStep(c, run(n)) && Tick(run(n), run(n + 1))
    ensures run(n + 1).loops == run(n).loops + 1
  {
    hide Next, CanStep;
    assert StepOrEnd(c, run(n), run(n + 1));
    EveryStateReachable(c, run, n);
    ReachableIsSafe(c, run(n));
    StepDescends(c, run(n), run(n + 1));
  }

  /** Every poll completes, with or without a loop limit: for each k within it there is a tick that ends poll k. */
  lemma {:induction false} EveryPollCompletes(c: Config, run: nat -> State, k: nat) returns (n: nat)
    requires GoodKernel(c) && Harmless(c) && c.timeouts && c.patient && c.netlinkers > 0
    requires c.inetdiagers > 0 || RoomForAll(c)
    requires IsMaximalRun(c, run) && MaxLoopsOrForEver(k, c.maxLoops)
    ensures run(n).loops == k && CanStep(c, run(n)) && Tick(run(n), run(n + 1))
    ensures run(n).crash == Alive && run(n).requests == run(n).dones == k + 1
  {
    hide *;
    OneLessGoesOn(k, c.maxLoops);
    var m := 0;
    if k == 0 {
      StartsAtZero(c, run);
    } else {
      var p := EveryPollCompletes(c, run, k - 1);
      AfterTick(c, run, p);
      m := p + 1;
    }
    n := NextTick(c, run, m, RankOf(c, run(m)));
    AlwaysGood(c, run, n);
    NotFinishedYet(c, run(n));
    if !CanStep(c, run(n)) {
      DeadlockFree(c, run(n));
    }
    TickCounts(c, run(n), run(n + 1));
  }

  lemma OneLessGoesOn(k: nat, maxLoops: int)
    requires MaxLoopsOrForEver(k, maxLoops)
    ensures k > 0 ==> MaxLoopsOrForEver(k - 1, maxLoops)
  {
  }

  lemma StartsAtZero(c: Config, run: nat -> State)
    requires IsMaximalRun(c, run)
    ensures run(0).loops == 0
  {
  }

  lemma NotFinishedYet(c: Config, s: State)
    requires Good(c, s) && s.crash == Alive && MaxLoopsOrForEver(s.loops, c.maxLoops)
    ensures s.pc != Finished
  {
    hide ChannelsFit, WorkersFit, NetlinkersFit, ChannelsServed, Conserved, DoneFits, Delivered;
  }

  lemma TickCounts(c: Config, s: State, t: State)
    requires Good(c, s) && s.crash == Alive && Tick(s, t)
    ensures s.requests == s.dones == s.loops + 1
  {
    hide ChannelsFit, WorkersFit, NetlinkersFit, ChannelsServed, Conserved, DoneFits, Delivered;
  }
}
