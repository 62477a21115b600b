/** When exactly a poll can hang. */
module Deadlock {
  import opened Misc
  import opened Netlinker
  import opened Pipeline
  import opened Safety
  import opened Conservation
  import opened Incarnations
  import opened Delivery
  import opened Progress
  import opened Termination
  import opened Unserved
  import opened Liveness
  import opened Workers

  // ---- Every netlinker times out before the reply arrives, and no one signals DONE ----

  /** Start-up of the first n workers, interleaved with nothing. */
  function Started(c: Config, n: nat): State {
    INIT.(pc := StartInetdiagers(n), chans := [Channel([], false)], workers := seq(n, _ => WorkerThread(0, Idle, [])))
  }

  lemma {:induction false} StartedReachable(c: Config, n: nat)
    requires MaxLoopsOrForEver(0, c.maxLoops) && c.happyModulus != 0 && n <= c.inetdiagers
    ensures Reachable(c, Started(c, n))
  {
    hide Reachable;
    if n == 0 {
      InitReachable(c);
      Follow(c, INIT, PollerStep);
      assert Exec(c, INIT, PollerStep) == Started(c, 0);
    } else {
      StartedReachable(c, n - 1);
      Follow(c, Started(c, n - 1), PollerStep);
      assert Exec(c, Started(c, n - 1), PollerStep) == Started(c, n);
    }
  }

  /** The first poll with m netlinkers started and k of them timed out, nothing received. */
  function Polling(c: Config, pc: PollerPC, m: nat, k: nat): State {
    Started(c, c.inetdiagers).(pc := pc, workersStarted := true, socket := c.kernel(0), requests := 1,
      netlinkers := seq(m, i => NetlinkerThread(0, 0, if 0 <= i < k then Gone else Receiving)))
  }

  lemma {:induction false} PollingReachable(c: Config, m: nat)
    requires MaxLoopsOrForEver(0, c.maxLoops) && c.happyModulus != 0 && m <= c.netlinkers
    ensures Reachable(c, Polling(c, StartNetlinkers(m), m, 0))
  {
    hide Reachable;
    if m == 0 {
      var s := Started(c, c.inetdiagers);
      StartedReachable(c, c.inetdiagers);
      Follow(c, s, PollerStep);
      var t := s.(pc := SendRequest, workersStarted := true);
      assert Exec(c, s, PollerStep) == t;
      Follow(c, t, PollerStep);
      assert [] + c.kernel(0) == c.kernel(0);
      assert Exec(c, t, PollerStep) == Polling(c, StartNetlinkers(0), 0, 0);
    } else {
      var s := Polling(c, StartNetlinkers(m - 1), m - 1, 0);
      PollingReachable(c, m - 1);
      Follow(c, s, PollerStep);
      assert Exec(c, s, PollerStep) == Polling(c, StartNetlinkers(m), m, 0);
    }
  }

  lemma {:induction false} TimeoutsReachable(c: Config, k: nat)
    requires MaxLoopsOrForEver(0, c.maxLoops) && c.happyModulus != 0 && k <= c.netlinkers
    requires k > 0 ==> c.timeouts && !c.patient
    ensures Reachable(c, Polling(c, AwaitDone, c.netlinkers, k))
  {
    hide Reachable;
    if k == 0 {
      var s := Polling(c, StartNetlinkers(c.netlinkers), c.netlinkers, 0);
      PollingReachable(c, c.netlinkers);
      Follow(c, s, PollerStep);
      assert Exec(c, s, PollerStep) == Polling(c, AwaitDone, c.netlinkers, 0);
    } else {
      var s := Polling(c, AwaitDone, c.netlinkers, k - 1);
      TimeoutsReachable(c, k - 1);
      Follow(c, s, Timeout(k - 1));
      assert Exec(c, s, Timeout(k - 1)) == Polling(c, AwaitDone, c.netlinkers, k);
    }
  }

  /** All netlinkers gone, the reply unread, the poller waiting for DONE for ever. */
  lemma FirstPollCanHang(c: Config)
    requires MaxLoopsOrForEver(0, c.maxLoops) && c.happyModulus != 0
    requires (c.timeouts && !c.patient) || c.netlinkers == 0
    ensures exists s :: Reachable(c, s) && s.crash == Alive && s.pc == AwaitDone && !CanStep(c, s)
  {
    var s := Polling(c, AwaitDone, c.netlinkers, c.netlinkers);
    TimeoutsReachable(c, c.netlinkers);
    ReachableIsSafe(c, s);
    hide Reachable, Fits;
    assert Stuck(c, s);
    hide Stuck;
    forall e ensures !Enabled(c, s, e) { StuckCannotStep(c, s, e); }
  }

  // ---- A zero modulus ends the first poll before it begins ----

  predicate NeverBegun(s: State) {
    s.crash != Alive || s == INIT
  }

  lemma StaysUnbegun(c: Config, s: State, t: State)
    requires MaxLoopsOrForEver(0, c.maxLoops) && c.happyModulus == 0 && NeverBegun(s) && Next(c, s, t)
    ensures NeverBegun(t)
  {
    var e :| Enabled(c, s, e) && t == Exec(c, s, e);
    assert e == PollerStep;
  }

  lemma {:induction false} NeverBegins(c: Config, run: seq<State>)
    requires MaxLoopsOrForEver(0, c.maxLoops) && c.happyModulus == 0 && IsRun(c, run)
    ensures NeverBegun(run[|run| - 1])
    decreases |run|
  {
    hide Next;
    if |run| > 1 {
      var n := |run| - 1;
      RunPrefix(c, run);
      NeverBegins(c, run[..n]);
      StaysUnbegun(c, run[n - 1], run[n]);
    }
  }

  /** With a zero modulus the program never hangs: it can only take the step that panics. */
  lemma UnbegunCanStep(c: Config, s: State)
    requires MaxLoopsOrForEver(0, c.maxLoops) && c.happyModulus == 0 && Reachable(c, s) && s.crash == Alive
    ensures CanStep(c, s)
  {
    hide Next, CanStep;
    var run: seq<State> :| IsRun(c, run) && run[|run| - 1] == s;
    NeverBegins(c, run);
    PollerCanStep(c, s);
  }

  // ---- Without a receive timeout the first poll never ends: its netlinkers block in Recvfrom ----

  /** No netlinker has ever left, so the first poll is still under way. */
  predicate FirstPoll(s: State) {
    && s.loops == 0 && Early(s.pc) && |s.chans| <= 1 && (s.pc == LoopTop ==> s.chans == [])
    && forall i :: 0 <= i < |s.netlinkers| ==> s.netlinkers[i].phase != Gone
  }

  lemma PollerKeepsFirst(c: Config, s: State)
    requires Fits(c, s) && s.crash == Alive && FirstPoll(s) && PollerReady(s)
    requires c.netlinkers > 0 && MaxLoopsOrForEver(0, c.maxLoops)
    ensures FirstPoll(PollerNext(c, s))
  {
    hide WorkersFit, CountsFit, ChannelsServed;
    if |s.netlinkers| > 0 { NotAllGone(s); }
  }

  lemma NotAllGone(s: State)
    requires FirstPoll(s) && |s.netlinkers| > 0
    ensures !AllGone(s.netlinkers)
  {
    assert s.netlinkers[0].phase != Gone;
  }

  lemma OthersKeepFirst(c: Config, s: State, e: Event)
    requires FirstPoll(s) && Enabled(c, s, e) && e != PollerStep && !c.timeouts
    ensures FirstPoll(Exec(c, s, e))
  {
    OthersStartNothing(c, s, e);
    hide Yields, Sends, MessagePanics;
  }

  lemma NextKeepsFirst(c: Config, s: State, t: State)
    requires Fits(c, s) && FirstPoll(s) && Next(c, s, t)
    requires !c.timeouts && c.netlinkers > 0 && MaxLoopsOrForEver(0, c.maxLoops)
    ensures FirstPoll(t)
  {
    var e :| Enabled(c, s, e) && t == Exec(c, s, e);
    if e == PollerStep {
      PollerKeepsFirst(c, s);
    } else {
      OthersKeepFirst(c, s, e);
    }
    hide Fits, FirstPoll;
  }

  lemma {:induction false} RunsStayFirst(c: Config, run: seq<State>)
    requires IsRun(c, run) && !c.timeouts && c.netlinkers > 0 && MaxLoopsOrForEver(0, c.maxLoops)
    ensures FirstPoll(run[|run| - 1])
    decreases |run|
  {
    hide Next, Fits, Conserved;
    if |run| > 1 {
      var n := |run| - 1;
      RunPrefix(c, run);
      RunsStayFirst(c, run[..n]);
      RunsAreSafe(c, run[..n]);
      hide *;
      NextKeepsFirst(c, run[n - 1], run[n]);
    }
  }

  lemma ReachableIsFirst(c: Config, s: State)
    requires Reachable(c, s) && !c.timeouts && c.netlinkers > 0 && MaxLoopsOrForEver(0, c.maxLoops)
    ensures FirstPoll(s)
  {
    hide Next, FirstPoll;
    var run: seq<State> :| IsRun(c, run) && run[|run| - 1] == s;
    RunsStayFirst(c, run);
  }

  /** The first reply has a message that kills the worker it reaches. */
  ghost predicate Lethal(c: Config) {
    exists m :: m in Expected(c, 1) && MessagePanics(c, m.body)
  }

  lemma FirstSurvives(c: Config, s: State, e: Event)
    requires Good(c, s) && Incarnated(c, s) && FirstPoll(s) && Enabled(c, s, e)
    requires c.happyModulus != 0 && (c.inetdiagers == 0 || !Lethal(c))
    ensures Exec(c, s, e).crash == Alive
  {
    GoodParts(c, s);
    ExecKeepsFits(c, s, e);
    if e.Process? {
      FirstProcess(c, s, e.j);
    } else {
      hide *;
      if e.NetlinkerPanic? { NetlinkersNeverPanic(c, s, e.i); }
      OthersSurvive(c, s, e);
    }
  }

  lemma FirstProcess(c: Config, s: State, j: nat)
    requires Good(c, s) && Incarnated(c, s) && FirstPoll(s) && Enabled(c, s, Process(j))
    requires c.inetdiagers == 0 || !Lethal(c)
    ensures Exec(c, s, Process(j)).crash == Alive
  {
    ProcessIs(c, s, j);
    HeldIsExpected(c, s, j);
    AtMostOneRequest(c, s);
    hide Good, Fits, Enabled, Exec, MessagePanics, ReplySends, FirstPoll;
    assert s.requests == 1 by { assert Expected(c, 0) == multiset{}; }
  }

  lemma AtMostOneRequest(c: Config, s: State)
    requires Good(c, s) && s.crash == Alive && FirstPoll(s)
    ensures s.requests <= 1
  {
    hide Conserved, DoneFits, Delivered, ChannelsFit, WorkersFit, NetlinkersFit, ChannelsServed;
  }

  lemma {:induction false} FirstStaysAlive(c: Config, run: seq<State>)
    requires GoodKernel(c) && IsRun(c, run)
    requires !c.timeouts && c.netlinkers > 0 && c.happyModulus != 0 && MaxLoopsOrForEver(0, c.maxLoops)
    requires c.inetdiagers == 0 || !Lethal(c)
    ensures run[|run| - 1].crash == Alive
    decreases |run|
  {
    if |run| > 1 {
      var n := |run| - 1;
      hide *;
      RunPrefix(c, run);
      FirstStaysAlive(c, run[..n]);
      RunsAreGood(c, run[..n]);
      RunsAreIncarnated(c, run[..n]);
      RunsStayFirst(c, run[..n]);
      NextSurvivesFirst(c, run[n - 1], run[n]);
    }
  }

  lemma NextSurvivesFirst(c: Config, s: State, t: State)
    requires Good(c, s) && Incarnated(c, s) && FirstPoll(s) && Next(c, s, t)
    requires c.happyModulus != 0 && (c.inetdiagers == 0 || !Lethal(c))
    ensures t.crash == Alive
  {
    hide Enabled, Exec, Good, Incarnated, FirstPoll, Lethal;
    var e :| Enabled(c, s, e) && t == Exec(c, s, e);
    FirstSurvives(c, s, e);
  }

  /** Without a receive timeout every run hangs in its first poll, unless a message kills a worker. */
  lemma NoTimeoutHangs(c: Config, run: nat -> State) returns (n: nat)
    requires GoodKernel(c) && IsMaximalRun(c, run)
    requires !c.timeouts && c.netlinkers > 0 && c.happyModulus != 0 && MaxLoopsOrForEver(0, c.maxLoops)
    requires c.inetdiagers == 0 || !Lethal(c)
    ensures run(n).crash == Alive && run(n).pc != Finished && !CanStep(c, run(n)) && run(n).loops == 0
  {
    hide *;
    n := NextTick(c, run, 0, RankOf(c, run(0)));
    EveryStateReachable(c, run, n);
    ReachableIsFirst(c, run(n));
    var path := PathTo(c, run(n));
    FirstStaysAlive(c, path);
    FirstNeverTicks(run(n), run(n + 1));
  }

  lemma FirstNeverTicks(s: State, t: State)
    requires FirstPoll(s)
    ensures s.loops == 0 && !Tick(s, t) && s.pc != Finished
  {
  }

  /** Followed as long as it can step, such a program comes to hang in its first poll. */
  lemma {:induction false} StarvedReachable(c: Config, s: State, r: Rank) returns (t: State)
    requires GoodKernel(c) && !c.timeouts && c.netlinkers > 0 && c.happyModulus != 0 && MaxLoopsOrForEver(0, c.maxLoops)
    requires c.inetdiagers == 0 || !Lethal(c)
    requires Reachable(c, s) && s.crash == Alive && r == RankOf(c, s)
    ensures Reachable(c, t) && t.crash == Alive && t.pc != Finished && !CanStep(c, t)
    decreases r.alive, r.polls, r.phases, r.spawns, r.packets, r.sends, r.backlog
  {
    hide CanStep, Next, Reachable, GoodKernel, RankOf, Lethal, FirstPoll, MaxLoopsOrForEver;
    t := s;
    ReachableIsFirst(c, s);
    FirstNeverTicks(s, s);
    if CanStep(c, s) {
      var u := StarvedStep(c, s);
      t := StarvedReachable(c, u, RankOf(c, u));
    }
  }

  lemma StarvedStep(c: Config, s: State) returns (u: State)
    requires GoodKernel(c) && !c.timeouts && c.netlinkers > 0 && c.happyModulus != 0 && MaxLoopsOrForEver(0, c.maxLoops)
    requires c.inetdiagers == 0 || !Lethal(c)
    requires Reachable(c, s) && s.crash == Alive && CanStep(c, s)
    ensures Reachable(c, u) && u.crash == Alive && Below(RankOf(c, u), RankOf(c, s))
  {
    hide *;
    var e := SomeStep(c, s);
    u := Exec(c, s, e);
    ReachableIsFirst(c, s);
    FirstNeverTicks(s, u);
    Follow(c, s, e);
    ReachableIsKept(c, s);
    FirstSurvives(c, s, e);
    ReachableIsSafe(c, s);
    StepDescends(c, s, u);
  }

  lemma SomeStep(c: Config, s: State) returns (e: Event)
    requires CanStep(c, s)
    ensures Enabled(c, s, e) && Next(c, s, Exec(c, s, e))
  {
    hide Enabled, Exec;
    e :| Enabled(c, s, e);
  }

  // A lethal first reply is the only way out: every netlinker starves only once everything has been processed.

  lemma StuckIsStarved(c: Config, s: State)
    requires Good(c, s) && s.crash == Alive && FirstPoll(s) && Stuck(c, s)
    requires !c.timeouts && c.netlinkers > 0 && c.inetdiagers > 0
    ensures s.pc == AwaitNetlinkers && s.socket == [] && s.requests == 1
    ensures forall i :: 0 <= i < |s.netlinkers| ==> s.netlinkers[i].phase == Receiving
  {
    GoodParts(c, s);
    forall i: nat | i < |s.netlinkers| ensures Starved(c, s, i)
        || (Facing(s, i) && Head(s, i) == Done && s.pc != AwaitDone) {
      assert Over(c, s, i);
      WorkersServe(c, s, i);
    }
    AllStarved(c, s);
    AtMostOneRequest(c, s);
    assert s.requests == s.loops + 1 by { hide DoneFits, ChannelsFit, WorkersFit, NetlinkersFit, ChannelsServed, Good; }
    hide Good, Fits, DoneFits, Stuck;
  }

  lemma AllStarved(c: Config, s: State)
    requires Fits(c, s) && DoneFits(c, s) && s.crash == Alive && c.netlinkers > 0
    requires s.pc == AwaitDone || s.pc == AwaitNetlinkers
    requires forall i: nat :: i < |s.netlinkers| ==>
      Starved(c, s, i) || (Facing(s, i) && Head(s, i) == Done && s.pc != AwaitDone)
    ensures s.pc == AwaitNetlinkers && s.socket == []
    ensures forall i :: 0 <= i < |s.netlinkers| ==> s.netlinkers[i].phase == Receiving
  {
    assert |s.netlinkers| == c.netlinkers;
    hide Fits, GoodReply, Ending;
    if s.pc == AwaitDone {
      assert Starved(c, s, 0);
      forall i: nat ensures !HoldsDone(s.netlinkers, i) {
        if i < |s.netlinkers| { assert Starved(c, s, i); }
      }
    } else {
      forall i: nat | i < |s.netlinkers| ensures Starved(c, s, i) { assert CleanThread(s.netlinkers[i]); }
      assert Starved(c, s, 0);
      forall i | 0 <= i < |s.netlinkers| ensures s.netlinkers[i].phase == Receiving { assert Starved(c, s, i); }
    }
  }

  lemma QuietChannels(c: Config, s: State)
    requires Fits(c, s) && s.crash == Alive && FirstPoll(s) && s.pc == AwaitNetlinkers && WorkersQuiet(s)
    requires c.inetdiagers > 0
    ensures forall g :: 0 <= g < |s.chans| ==> s.chans[g] == Channel([], false)
  {
    forall g | 0 <= g < |s.chans| ensures s.chans[g] == Channel([], false) {
      assert Served(s, g);
      var j :| 0 <= j < |s.workers| && s.workers[j].ch == g;
    }
  }

  /** What has starved has been processed to the last message. */
  lemma StarvedProcessedAll(c: Config, s: State)
    requires Good(c, s) && s.crash == Alive && FirstPoll(s) && Stuck(c, s)
    requires !c.timeouts && c.netlinkers > 0 && c.inetdiagers > 0
    ensures Total(s.workers, Processed) == Expected(c, 1)
  {
    StuckIsStarved(c, s);
    GoodParts(c, s);
    QuietChannels(c, s);
    assert WorkersQuiet(s) && Conserved(s) && Delivered(c, s) by {
      hide Fits, Conserved, DoneFits, Delivered, WorkersQuiet;
    }
    hide Good, Fits, FirstPoll, Stuck, Expected;
    TotalEmpty(s.netlinkers, Pending);
    TotalEmpty(s.chans, Queued);
    TotalEmpty(s.workers, Held);
    NothingToReceive(c, s.loops);
    hide Total, ReplySends;
  }

  lemma {:induction false} ProcessedSomewhere(ws: seq<WorkerThread>, m: Msg)
    requires m in Total(ws, Processed)
    ensures exists j, k :: 0 <= j < |ws| && 0 <= k < |ws[j].processed| && ws[j].processed[k] == m
  {
    var n := |ws| - 1;
    if m in ws[n].processed {
      var k :| 0 <= k < |ws[n].processed| && ws[n].processed[k] == m;
    } else {
      ProcessedSomewhere(ws[..n], m);
      var j, k :| 0 <= j < n && 0 <= k < |ws[..n][j].processed| && ws[..n][j].processed[k] == m;
      assert ws[j].processed[k] == m;
    }
  }

  lemma ProcessedSurvived(c: Config, s: State, m: Msg)
    requires AllSurvived(c, s) && m in Total(s.workers, Processed)
    ensures !MessagePanics(c, m.body)
  {
    ProcessedSomewhere(s.workers, m);
    hide MessagePanics, Total;
    var j, k :| 0 <= j < |s.workers| && 0 <= k < |s.workers[j].processed| && s.workers[j].processed[k] == m;
    assert Survived(c, s.workers[j]);
  }

  lemma LethalNeverHangs(c: Config, s: State)
    requires GoodKernel(c) && !c.timeouts && c.netlinkers > 0 && c.inetdiagers > 0 && Lethal(c)
    requires MaxLoopsOrForEver(0, c.maxLoops)
    requires Reachable(c, s) && s.crash == Alive && s.pc != Finished
    ensures CanStep(c, s)
  {
    ReachableIsGood(c, s);
    ReachableIsFirst(c, s);
    ReachableSurvived(c, s);
    GoodParts(c, s);
    hide Reachable, GoodKernel, Good, Fits, FirstPoll, CanStep, Stuck, Expected, MessagePanics, Total;
    if Stuck(c, s) {
      StarvedProcessedAll(c, s);
      var m :| m in Expected(c, 1) && MessagePanics(c, m.body);
      ProcessedSurvived(c, s, m);
    } else {
      NotStuckCanStep(c, s);
    }
  }

  // ---- Both ways ----

  /** What a poller with a non-zero modulus needs so as not to hang. With a receive timeout: netlinkers, timeouts only
      after the reply has been drained, and inetdiagers or room in the channel for all that stays in it. Without one,
      only a panic in the first poll saves it from hanging. */
  ghost predicate Sound(c: Config) {
    && c.netlinkers > 0
    && (c.timeouts ==> c.patient && (c.inetdiagers > 0 || RoomForAll(c)))
    && (!c.timeouts ==> c.inetdiagers > 0 && Lethal(c))
  }

  /** Given well-formed replies, no poll can hang if and only if the poller is sound, or panics
      before its first request. */
  lemma DeadlockFreeIff(c: Config)
    requires GoodKernel(c) && MaxLoopsOrForEver(0, c.maxLoops)
    ensures NeverHangs(c) <==> c.happyModulus == 0 || Sound(c)
  {
    hide Reachable, CanStep, GoodKernel, RoomForAll, Lethal;
    if c.happyModulus == 0 {
      forall s | Reachable(c, s) && s.crash == Alive && s.pc != Finished ensures CanStep(c, s) { UnbegunCanStep(c, s); }
    } else if Sound(c) {
      forall s | Reachable(c, s) && s.crash == Alive && s.pc != Finished ensures CanStep(c, s) {
        if c.timeouts { DeadlockFree(c, s); } else { LethalNeverHangs(c, s); }
      }
    } else if c.netlinkers == 0 || (c.timeouts && !c.patient) {
      FirstPollCanHang(c);
    } else if !c.timeouts {
      InitReachable(c);
      var s := StarvedReachable(c, INIT, RankOf(c, INIT));
    } else if NeverHangs(c) {
      NeedsRoom(c);
    }
  }
}
