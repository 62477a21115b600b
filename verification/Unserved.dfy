/** A poller without inetdiagers: nothing empties the channel, so polls complete exactly while the replies fit in it. */
module Unserved {
  import opened Misc
  import opened Pipeline
  import opened Safety
  import opened Conservation
  import opened Incarnations
  import opened Delivery
  import opened Progress
  import opened Termination

  /** What lies in the channel at the end of poll k: that poll's reply, or all replies so far when the channel
      is kept. */
  function Backlog(c: Config, k: nat): multiset<Msg> {
    if c.shutdownWorkers then ReplySends(c, k, c.kernel(k)) else Expected(c, k + 1)
  }

  ghost predicate RoomForAll(c: Config) {
    forall k: nat :: MaxLoopsOrForEver(k, c.maxLoops) ==> |Backlog(c, k)| <= c.netlinkerChSize
  }

  /** The poll in which the newest channel was made. */
  function Since(c: Config, s: State): nat {
    if c.shutdownWorkers then s.loops else 0
  }

  function Older(s: State): seq<Channel> {
    if s.chans == [] then [] else s.chans[..|s.chans| - 1]
  }

  /** Without workers, older channels keep the replies of earlier polls; no channel holds more than it can. */
  predicate Kept(c: Config, s: State) {
    && (c.inetdiagers == 0 && Open(s) ==> Total(Older(s), Queued) == Expected(c, Since(c, s)))
    && forall g :: 0 <= g < |s.chans| ==> |s.chans[g].buf| <= c.netlinkerChSize
  }

  lemma NoWorkers(s: State)
    requires s.workers == []
    ensures Total(s.workers, Held) == Total(s.workers, Processed) == multiset{}
  {
  }

  /** Everything sent so far is unsent in netlinkers, in a channel, or in the socket. */
  lemma Spread(c: Config, s: State)
    requires Conserved(s) && Delivered(c, s) && s.workers == []
    ensures Total(s.netlinkers, Pending) + Total(s.chans, Queued) + ReplySends(c, s.loops, s.socket)
            == Expected(c, s.requests)
  {
    NoWorkers(s);
    hide Total, Expected, ReplySends;
  }

  lemma NewestLast(s: State)
    requires s.chans != []
    ensures Total(s.chans, Queued) == Total(Older(s), Queued) + Queued(s.chans[Newest(s)])
  {
  }

  lemma FirstOfKept(c: Config, s: State)
    requires Good(c, s) && s.crash == Alive && Incarnated(c, s) && c.inetdiagers == 0 && s.pc == LoopTop
    requires !s.workersStarted
    ensures Total(s.chans, Queued) == Expected(c, Since(c, s))
  {
    assert s.socket == [] by { hide GoodReply, Fits, Conserved, Delivered; }
    assert AllGone(s.netlinkers) && s.requests == s.loops by {
      hide Conserved, DoneFits, Delivered, ChannelsFit, WorkersFit, ChannelsServed;
    }
    if c.shutdownWorkers {
      Spread(c, s);
      TotalEmpty(s.netlinkers, Pending);
      hide Total, Expected, Good, Incarnated;
      NothingToReceive(c, s.loops);
    }
  }

  lemma PollerKeepsKept(c: Config, s: State)
    requires Good(c, s) && Incarnated(c, s) && Kept(c, s) && s.crash == Alive && PollerReady(s)
    ensures Kept(c, PollerNext(c, s))
  {
    assert ChannelsFit(s) by {
      hide Conserved, DoneFits, Delivered, ChannelsServed, WorkersFit, NetlinkersFit, CountsFit;
    }
    if c.inetdiagers == 0 && s.pc == LoopTop && !s.workersStarted { FirstOfKept(c, s); }
    PollerKeepsRoom(c, s);
    hide *;
    hide PollerNext;
    PollerKeepsOlder(c, s);
    KeptIs(c, PollerNext(c, s));
  }

  lemma KeptIs(c: Config, s: State)
    requires c.inetdiagers == 0 && Open(s) ==> Total(Older(s), Queued) == Expected(c, Since(c, s))
    requires forall g :: 0 <= g < |s.chans| ==> |s.chans[g].buf| <= c.netlinkerChSize
    ensures Kept(c, s)
  {
  }

  lemma PollerKeepsRoom(c: Config, s: State)
    requires Kept(c, s) && PollerReady(s)
    ensures forall g :: 0 <= g < |PollerNext(c, s).chans| ==> |PollerNext(c, s).chans[g].buf| <= c.netlinkerChSize
  {
    hide Total, Expected, Older, Since, MaxLoopsOrForEver;
  }

  lemma PollerKeepsOlder(c: Config, s: State)
    requires ChannelsFit(s) && Incarnated(c, s) && Kept(c, s) && PollerReady(s)
    requires c.inetdiagers == 0 && s.pc == LoopTop && !s.workersStarted ==>
      Total(s.chans, Queued) == Expected(c, Since(c, s))
    ensures var t := PollerNext(c, s);
            c.inetdiagers == 0 && Open(t) ==> Total(Older(t), Queued) == Expected(c, Since(c, t))
  {
    var t := PollerNext(c, s);
    PollerChannels(c, s);
    NoOpenTick(c, s);
    hide PollerNext, Total, Expected, MaxLoopsOrForEver, ChannelsFit, Incarnated;
    if t.chans != s.chans {
      assert s.pc == LoopTop ==> Older(t) == s.chans;
    }
  }

  lemma NoOpenTick(c: Config, s: State)
    requires ChannelsFit(s) && Incarnated(c, s)
    ensures c.shutdownWorkers && s.pc == AwaitTick ==> !Open(s)
    ensures s.pc == LoopTop && !s.workersStarted ==> !Open(s)
  {
  }

  /** The poller opens a channel at the loop's top and closes the newest one; only then do the channels change. */
  lemma PollerChannels(c: Config, s: State)
    requires PollerReady(s)
    ensures var t := PollerNext(c, s);
            && (t.chans == s.chans
                || (s.pc == LoopTop && !s.workersStarted && t.chans == s.chans + [Channel([], false)])
                || (s.pc.CloseChannel? && !Open(t)))
            && (t.loops == s.loops || s.pc == AwaitTick)
  {
    hide MaxLoopsOrForEver;
  }

  lemma OthersKeepKept(c: Config, s: State, e: Event)
    requires Fits(c, s) && Kept(c, s) && Enabled(c, s, e) && e != PollerStep
    ensures Kept(c, Exec(c, s, e))
  {
    var t := Exec(c, s, e);
    OthersStartNothing(c, s, e);
    OthersKeepOlder(c, s, e);
    hide *;
    StillKept(c, s, t);
  }

  lemma StillKept(c: Config, s: State, t: State)
    requires Kept(c, s) && Older(t) == Older(s) && |t.chans| == |s.chans| && t.loops == s.loops
    requires forall g :: 0 <= g < |s.chans| ==>
      t.chans[g].closed == s.chans[g].closed
      && (|s.chans[g].buf| <= c.netlinkerChSize ==> |t.chans[g].buf| <= c.netlinkerChSize)
    ensures Kept(c, t)
  {
    hide Total, Expected, Older;
  }

  lemma OthersKeepOlder(c: Config, s: State, e: Event)
    requires Fits(c, s) && Enabled(c, s, e) && e != PollerStep
    ensures var t := Exec(c, s, e);
            && |t.chans| == |s.chans|
            && (c.inetdiagers == 0 ==> Older(t) == Older(s))
            && forall g :: 0 <= g < |s.chans| ==>
                 t.chans[g].closed == s.chans[g].closed
                 && (|s.chans[g].buf| <= c.netlinkerChSize ==> |t.chans[g].buf| <= c.netlinkerChSize)
  {
    hide Yields, Sends, MessagePanics, CountsFit, ChannelsServed, ChannelsFit;
  }

  lemma NextKeepsKept(c: Config, s: State, t: State)
    requires Good(c, s) && Incarnated(c, s) && Kept(c, s) && Next(c, s, t)
    ensures Kept(c, t)
  {
    var e :| Enabled(c, s, e) && t == Exec(c, s, e);
    assert Fits(c, s) && s.crash == Alive by { hide Fits, Conserved, DoneFits, Delivered, Exec, Yields; }
    hide *;
    if e == PollerStep {
      PollerStepKept(c, s, t);
    } else {
      OthersKeepKept(c, s, e);
    }
  }

  lemma PollerStepKept(c: Config, s: State, t: State)
    requires Good(c, s) && Incarnated(c, s) && Kept(c, s) && Enabled(c, s, PollerStep) && t == Exec(c, s, PollerStep)
    ensures Kept(c, t)
  {
    PollerKeepsKept(c, s);
    hide Good, Incarnated, Kept;
  }

  lemma {:induction false} RunsAreKept(c: Config, run: seq<State>)
    requires GoodKernel(c) && IsRun(c, run)
    ensures Kept(c, run[|run| - 1])
    decreases |run|
  {
    hide Next, GoodKernel, Good, Incarnated;
    if |run| > 1 {
      var n := |run| - 1;
      RunPrefix(c, run);
      RunsAreKept(c, run[..n]);
      RunsAreGood(c, run[..n]);
      RunsAreIncarnated(c, run[..n]);
      hide *;
      NextKeepsKept(c, run[n - 1], run[n]);
    }
  }

  lemma ReachableIsKept(c: Config, s: State)
    requires GoodKernel(c) && Reachable(c, s)
    ensures Kept(c, s) && Good(c, s) && Incarnated(c, s)
  {
    hide Next, GoodKernel, Good, Incarnated, Kept;
    ReachableIsGood(c, s);
    ReachableIsIncarnated(c, s);
    var run: seq<State> :| IsRun(c, run) && run[|run| - 1] == s;
    RunsAreKept(c, run);
  }

  // ---- Room for every reply is enough ----

  lemma UnderWay(c: Config, s: State)
    requires GoodKernel(c) && Reachable(c, s) && s.crash == Alive && c.inetdiagers == 0 && PollUnderWay(s.pc)
    ensures Open(s) && s.requests == s.loops + 1 && MaxLoopsOrForEver(s.loops, c.maxLoops)
    ensures s.workers == [] && Conserved(s) && Delivered(c, s) && Total(Older(s), Queued) == Expected(c, Since(c, s))
  {
    hide GoodKernel, Reachable;
    ReachableIsKept(c, s);
    hide Total, Expected, ReplySends, DoneFits, WorkersFit, NetlinkersFit, ChannelsServed;
  }

  /** The poll's backlog is in the newest channel, in netlinkers or in the socket. */
  lemma BacklogSpread(c: Config, s: State)
    requires GoodKernel(c) && Reachable(c, s) && s.crash == Alive && c.inetdiagers == 0 && PollUnderWay(s.pc)
    ensures s.chans != [] && MaxLoopsOrForEver(s.loops, c.maxLoops)
    ensures Total(s.netlinkers, Pending) + Queued(s.chans[Newest(s)]) + ReplySends(c, s.loops, s.socket)
            == Backlog(c, s.loops)
  {
    UnderWay(c, s);
    assert s.chans != [] && Newest(s) == |s.chans| - 1;
    BacklogSince(c, s);
    hide *;
    Spread(c, s);
    NewestLast(s);
    Peel(Total(s.netlinkers, Pending), Total(s.chans, Queued), Total(Older(s), Queued), Queued(s.chans[Newest(s)]),
         ReplySends(c, s.loops, s.socket), Backlog(c, s.loops), Expected(c, s.requests));
  }

  lemma BacklogSince(c: Config, s: State)
    requires s.requests == s.loops + 1
    ensures Expected(c, s.requests) == Expected(c, Since(c, s)) + Backlog(c, s.loops)
  {
    BacklogOf(c, s.loops);
    hide Expected, Backlog;
  }

  lemma BacklogOf(c: Config, k: nat)
    ensures Expected(c, k + 1) == Expected(c, if c.shutdownWorkers then k else 0) + Backlog(c, k)
  {
    hide ReplySends;
    assert Expected(c, 0) == multiset{};
  }

  lemma Peel(p: multiset<Msg>, t: multiset<Msg>, o: multiset<Msg>, q: multiset<Msg>, r: multiset<Msg>,
             b: multiset<Msg>, x: multiset<Msg>)
    requires t == o + q && p + t + r == x && x == o + b
    ensures p + q + r == b
  {
    assert p + q + r == (p + (o + q) + r) - o;
    assert b == (o + b) - o;
  }

  lemma RoomLeft(c: Config, s: State, i: nat)
    requires GoodKernel(c) && Reachable(c, s) && s.crash == Alive && c.inetdiagers == 0 && RoomForAll(c)
    ensures !Blocked(c, s, i)
  {
    hide GoodKernel, Reachable;
    if Facing(s, i) && Head(s, i).Send? {
      ReachableIsSafe(c, s);
      assert PollUnderWay(s.pc) && s.netlinkers[i].ch == Newest(s) by {
        hide Conserved, ChannelsFit, WorkersFit, CountsFit, ChannelsServed;
      }
      hide Fits, Conserved;
      BacklogSpread(c, s);
      TotalMember(s.netlinkers, Pending, i);
      SendsStep(s.netlinkers[i].stamp, s.netlinkers[i].phase.script);
      hide Total, Backlog, ReplySends, Sends;
      assert |Pending(s.netlinkers[i])| >= 1;
      Sizes(Pending(s.netlinkers[i]), Total(s.netlinkers, Pending), Queued(s.chans[Newest(s)]),
            ReplySends(c, s.loops, s.socket));
    }
  }

  lemma Sizes(a: multiset<Msg>, p: multiset<Msg>, q: multiset<Msg>, r: multiset<Msg>)
    requires a <= p
    ensures |p + q + r| >= |a| + |q|
  {
    assert p == a + (p - a);
  }

  // ---- Room for every reply is needed ----

  /** All netlinkers of the poll have finished. */
  predicate PollDrained(s: State) {
    s.pc == AwaitNetlinkers && AllGone(s.netlinkers)
  }

  predicate Early(pc: PollerPC) {
    pc == LoopTop || pc.StartInetdiagers? || pc == SendRequest || PollUnderWay(pc)
  }

  lemma EarlyStep(c: Config, s: State, e: Event)
    requires Good(c, s) && Enabled(c, s, e) && Early(s.pc) && !PollDrained(s) && MaxLoopsOrForEver(s.loops, c.maxLoops)
    requires c.happyModulus != 0 && s.workers == []
    ensures var t := Exec(c, s, e); Early(t.pc) && t.loops == s.loops && t.crash == Alive
  {
    GoodFits(c, s);
    if e.NetlinkerPanic? { NetlinkersNeverPanic(c, s, e.i); }
    ExecKeepsFits(c, s, e);
    hide Good, Conserved, DoneFits, Delivered;
    if e == PollerStep {
      EarlyPoller(c, s);
    } else {
      OthersStartNothing(c, s, e);
      OthersStayAlive(c, s, e);
      hide Enabled, Exec, Fits;
    }
  }

  lemma GoodFits(c: Config, s: State)
    requires Good(c, s)
    ensures Fits(c, s) && (s.crash == Alive ==> DoneFits(c, s))
  {
    hide Fits, Conserved, DoneFits, Delivered;
  }

  lemma EarlyPoller(c: Config, s: State)
    requires PollerReady(s) && Early(s.pc) && !PollDrained(s) && MaxLoopsOrForEver(s.loops, c.maxLoops)
    requires c.happyModulus != 0
    ensures var t := PollerNext(c, s); Early(t.pc) && t.loops == s.loops && t.crash == s.crash
  {
  }

  lemma OthersStayAlive(c: Config, s: State, e: Event)
    requires Enabled(c, s, e) && e != PollerStep && !e.NetlinkerPanic? && s.workers == [] && Fits(c, Exec(c, s, e))
    ensures Exec(c, s, e).crash == Alive
  {
    hide Structured, ChannelsServed, Yields, Sends, MessagePanics;
  }

  /** Without hanging, a poll that has begun comes to the point where its netlinkers have finished. */
  lemma {:induction false} DrainReachable(c: Config, s: State, r: Rank) returns (t: State)
    requires GoodKernel(c) && c.happyModulus != 0 && c.inetdiagers == 0 && r == RankOf(c, s)
    requires NeverHangs(c) && Reachable(c, s) && s.crash == Alive && Early(s.pc)
    requires MaxLoopsOrForEver(s.loops, c.maxLoops)
    ensures Reachable(c, t) && t.crash == Alive && PollDrained(t) && t.loops == s.loops
    decreases r.alive, r.polls, r.phases, r.spawns, r.packets, r.sends, r.backlog
  {
    t := s;
    if !PollDrained(s) {
      assert CanStep(c, s);
      var e :| Enabled(c, s, e);
      var u := Exec(c, s, e);
      Follow(c, s, e);
      ReachableIsKept(c, s);
      assert s.workers == [] && Fits(c, s) by {
        hide Kept, Fits, Conserved, Delivered, DoneFits, GoodKernel, Reachable, CanStep, Enabled, Exec;
      }
      EarlyStep(c, s, e);
      assert Next(c, s, u);
      assert !Tick(s, u);
      hide GoodKernel, Reachable, NeverHangs, CanStep, Enabled, Exec, Next, Fits, RankOf, Kept, Good, Incarnated, Early;
      StepDescends(c, s, u);
      t := DrainReachable(c, u, RankOf(c, u));
    }
  }

  lemma PollerFollows(c: Config, s: State)
    requires Reachable(c, s) && s.crash == Alive && PollerReady(s)
    ensures Reachable(c, PollerNext(c, s))
  {
    assert Enabled(c, s, PollerStep) && Exec(c, s, PollerStep) == PollerNext(c, s);
    hide Reachable, Enabled, Exec;
    Follow(c, s, PollerStep);
  }

  /** From a drained poll the poller goes on to its next round; without workers nothing holds it up. */
  lemma NextRound(c: Config, s: State) returns (t: State)
    requires Fits(c, s) && Reachable(c, s) && s.crash == Alive && PollDrained(s) && s.workers == []
    ensures Reachable(c, t) && t.crash == Alive && t.pc == LoopTop && t.loops == s.loops + 1
  {
    assert Open(s);
    hide Reachable, Fits;
    PollerFollows(c, s);
    t := PollerNext(c, s);
    if c.shutdownWorkers { t := ShutDownRound(c, t); }
    PollerFollows(c, t);
    t := PollerNext(c, t);
  }

  lemma ShutDownRound(c: Config, s: State) returns (t: State)
    requires Reachable(c, s) && s.crash == Alive && s.pc == CloseChannel(false) && Open(s) && s.workers == []
    ensures Reachable(c, t) && t.crash == Alive && t.pc == AwaitTick && t.loops == s.loops
  {
    hide Reachable;
    PollerFollows(c, s);
    t := PollerNext(c, s);
    PollerFollows(c, t);
    t := PollerNext(c, t);
  }

  lemma {:induction false} RoundReachable(c: Config, k: nat) returns (s: State)
    requires GoodKernel(c) && c.happyModulus != 0 && c.inetdiagers == 0 && NeverHangs(c)
    requires MaxLoopsOrForEver(k, c.maxLoops)
    ensures Reachable(c, s) && s.crash == Alive && PollDrained(s) && s.loops == k
  {
    hide GoodKernel, NeverHangs, Reachable;
    s := INIT;
    InitReachable(c);
    if k > 0 {
      var d := RoundReachable(c, k - 1);
      ReachableIsKept(c, d);
      assert d.workers == [] && Fits(c, d) by { hide Kept, Fits, Conserved, Delivered, DoneFits; }
      hide Good, Incarnated, Kept, Fits;
      s := NextRound(c, d);
    }
    s := DrainReachable(c, s, RankOf(c, s));
  }

  /** A poller without inetdiagers that never hangs has room in the channel for every poll's backlog. */
  lemma NeedsRoom(c: Config)
    requires GoodKernel(c) && c.happyModulus != 0 && c.inetdiagers == 0 && NeverHangs(c)
    ensures RoomForAll(c)
  {
    hide GoodKernel, NeverHangs, Backlog;
    forall k: nat | MaxLoopsOrForEver(k, c.maxLoops) ensures |Backlog(c, k)| <= c.netlinkerChSize {
      var s := RoundReachable(c, k);
      DrainedBacklog(c, s);
    }
  }

  lemma DrainedBacklog(c: Config, s: State)
    requires GoodKernel(c) && Reachable(c, s) && s.crash == Alive && c.inetdiagers == 0 && PollDrained(s)
    ensures |Backlog(c, s.loops)| <= c.netlinkerChSize
  {
    hide GoodKernel, Reachable;
    BacklogSpread(c, s);
    ReachableIsKept(c, s);
    assert s.socket == [] by { hide Fits, Conserved, Delivered, Kept; }
    assert |s.chans[Newest(s)].buf| <= c.netlinkerChSize by { hide Good; }
    TotalEmpty(s.netlinkers, Pending);
    NothingToReceive(c, s.loops);
    hide Good, Kept, Incarnated, Total, ReplySends, Backlog;
    assert Backlog(c, s.loops) == Queued(s.chans[Newest(s)]);
  }
}
