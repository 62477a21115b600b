/** Invariants of every reachable state: the life of channels and threads, one dump in flight, no message lost
    or doubled. */
module Safety {
  import opened Misc
  import opened Pipeline

  // ---- Structure ----

  /** Old channels are closed, and workersStarted tracks whether the newest is open. */
  predicate ChannelsFit(s: State) {
    && (forall g :: 0 <= g < |s.chans| - 1 ==> s.chans[g].closed)
    && match s.pc
       case LoopTop => s.workersStarted <==> Open(s)
       case StartInetdiagers(_) => Open(s) && !s.workersStarted
       case AwaitInetdiagers(_) => s.chans != [] && !Open(s) && s.workersStarted
       case AwaitTick => s.workersStarted <==> Open(s)
       case Finished => !s.workersStarted && !Open(s)
       case _ => Open(s) && s.workersStarted
  }

  /** A worker leaves only a closed and drained channel; outside AwaitInetdiagers only workers of an open
      channel live. */
  predicate WorkersFit(s: State) {
    && (forall j :: 0 <= j < |s.workers| ==> s.workers[j].ch < |s.chans|)
    && (forall j :: 0 <= j < |s.workers| && s.workers[j].phase == Left ==>
        s.chans[s.workers[j].ch] == Channel([], true))
    && (forall j :: 0 <= j < |s.workers| && s.workers[j].phase != Left ==>
          s.workers[j].ch == Newest(s) && (s.pc.AwaitInetdiagers? || Open(s)))
  }

  /** With inetdiagers configured, every channel past its start-up has had one. */
  predicate ChannelsServed(c: Config, s: State) {
    && (s.pc.StartInetdiagers? ==> s.pc.started <= c.inetdiagers)
    && (c.inetdiagers > 0 ==> forall g :: 0 <= g < |s.chans| && PastStartUp(s, g) ==> Served(s, g))
  }

  predicate PastStartUp(s: State, g: int) {
    g < |s.chans| - 1 || !s.pc.StartInetdiagers? || s.pc.started > 0
  }

  predicate Served(s: State, g: nat) {
    exists j :: 0 <= j < |s.workers| && s.workers[j].ch == g
  }

  predicate PollUnderWay(pc: PollerPC) {
    pc.StartNetlinkers? || pc == AwaitDone || pc == AwaitNetlinkers
  }

  /** Live netlinkers belong to the poll under way and send to the newest channel. */
  predicate NetlinkersFit(c: Config, s: State) {
    && (s.pc.StartNetlinkers? ==> |s.netlinkers| == s.pc.started <= c.netlinkers)
    && (s.pc == AwaitDone || s.pc == AwaitNetlinkers ==> |s.netlinkers| == c.netlinkers)
    && (forall i :: 0 <= i < |s.netlinkers| ==> s.netlinkers[i].ch < |s.chans|)
    && (forall i :: 0 <= i < |s.netlinkers| && s.netlinkers[i].phase != Gone ==>
          s.netlinkers[i].ch == Newest(s) && s.netlinkers[i].stamp == s.loops && PollUnderWay(s.pc))
  }

  /** Requests sent and DONEs taken follow the loop counter. */
  predicate CountsFit(c: Config, s: State) {
    && s.requests == s.loops + (if PollUnderWay(s.pc) || s.pc == AwaitTick || s.pc == CloseChannel(false) || s.pc
                                == AwaitInetdiagers(false) then 1 else 0)
    && s.dones == s.requests - (if s.pc.StartNetlinkers? || s.pc == AwaitDone then 1 else 0)
    && (s.pc != LoopTop && s.pc != Finished && s.pc != CloseChannel(true) && s.pc != AwaitInetdiagers(true) ==>
        MaxLoopsOrForEver(s.loops, c.maxLoops))
    && (s.loops > 0 ==> MaxLoopsOrForEver(s.loops - 1, c.maxLoops))
    && (s.pc == Finished || s.pc == CloseChannel(true) || s.pc == AwaitInetdiagers(true) ==>
        !MaxLoopsOrForEver(s.loops, c.maxLoops))
  }

  predicate Structured(c: Config, s: State) {
    ChannelsFit(s) && WorkersFit(s) && NetlinkersFit(c, s) && CountsFit(c, s)
  }

  predicate Fits(c: Config, s: State) {
    s.crash != SendOnClosed && s.crash != CloseOfClosed
        && (s.crash == Alive ==> Structured(c, s) && ChannelsServed(c, s))
  }

  lemma InitFits(c: Config)
    ensures Fits(c, INIT)
  {
  }

  lemma PollerKeepsChannels(c: Config, s: State)
    requires ChannelsFit(s) && s.crash == Alive && PollerReady(s)
    ensures ChannelsFit(PollerNext(c, s)) && (PollerNext(c, s).crash == Alive || PollerNext(c, s).crash == Panicked)
  {
  }

  lemma PollerKeepsWorkers(c: Config, s: State)
    requires ChannelsFit(s) && WorkersFit(s) && PollerReady(s)
    ensures WorkersFit(PollerNext(c, s))
  {
    var t := PollerNext(c, s);
    assert forall j :: 0 <= j < |s.workers| ==> t.workers[j] == s.workers[j];
    assert s.chans != [] && s.pc.LoopTop? && !s.workersStarted ==> AllLeft(s.workers);
  }

  lemma PollerKeepsNetlinkers(c: Config, s: State)
    requires ChannelsFit(s) && NetlinkersFit(c, s) && PollerReady(s)
    ensures NetlinkersFit(c, PollerNext(c, s))
  {
  }

  lemma PollerKeepsCounts(c: Config, s: State)
    requires CountsFit(c, s) && PollerReady(s)
    ensures CountsFit(c, PollerNext(c, s))
  {
  }

  lemma PollerKeepsStructure(c: Config, s: State)
    requires Structured(c, s) && s.crash == Alive && PollerReady(s)
    ensures Structured(c, PollerNext(c, s)) && (PollerNext(c, s).crash == Alive || PollerNext(c, s).crash == Panicked)
  {
    PollerKeepsChannels(c, s);
    PollerKeepsWorkers(c, s);
    PollerKeepsNetlinkers(c, s);
    PollerKeepsCounts(c, s);
    hide *;
    hide PollerNext;
  }

  predicate NetlinkerEvent(e: Event) {
    e.TakeDone? || e.Receive? || e.Timeout? || e.NextPacket? || e.Enqueue? || e.NetlinkerPanic?
  }

  predicate WorkerEvent(e: Event) {
    e.Dequeue? || e.Process? || e.Leave?
  }

  /** What a netlinker's own step leaves alone: only a message enqueued on an open channel changes that channel. */
  predicate NetlinkerFrame(s: State, t: State, i: nat) {
    && i < |s.netlinkers| && |t.netlinkers| == |s.netlinkers|
    && t.netlinkers == s.netlinkers[i := t.netlinkers[i]]
    && t.netlinkers[i].ch == s.netlinkers[i].ch && t.netlinkers[i].stamp == s.netlinkers[i].stamp
    && s.netlinkers[i].phase != Gone
    && t.workers == s.workers && |t.chans| == |s.chans|
    && (forall g :: 0 <= g < |s.chans| ==>
        t.chans[g].closed == s.chans[g].closed && (s.chans[g].closed ==> t.chans[g] == s.chans[g]))
    && t.workersStarted == s.workersStarted && t.loops == s.loops && t.requests == s.requests
    && ((t.pc == s.pc && t.dones == s.dones)
        || (s.pc == AwaitDone && t.pc == AwaitNetlinkers && t.dones == s.dones + 1))
  }

  function NetlinkerOf(e: Event): nat
    requires NetlinkerEvent(e)
  {
    match e
    case TakeDone(i) => i
    case Receive(i, _) => i
    case Timeout(i) => i
    case NextPacket(i) => i
    case Enqueue(i) => i
    case NetlinkerPanic(i) => i
  }

  lemma NetlinkerSteps(c: Config, s: State, e: Event)
    requires Enabled(c, s, e) && NetlinkerEvent(e) && Exec(c, s, e).crash == Alive
    ensures NetlinkerFrame(s, Exec(c, s, e), NetlinkerOf(e))
  {
    hide Yields;
  }

  lemma NetlinkerKeepsStructure(c: Config, s: State, t: State, i: nat)
    requires Structured(c, s) && NetlinkerFrame(s, t, i)
    ensures Structured(c, t)
  {
    hide MaxLoopsOrForEver;
  }

  /** A live netlinker's channel is open. */
  lemma NetlinkerNeverSendsOnClosed(c: Config, s: State, e: Event)
    requires Structured(c, s) && Enabled(c, s, e) && NetlinkerEvent(e)
    ensures var t := Exec(c, s, e); t.crash == Alive || t.crash == Panicked
  {
    hide Yields;
  }

  /** What a worker's own step leaves alone. */
  predicate WorkerFrame(s: State, t: State, j: nat) {
    && j < |s.workers| && |t.workers| == |s.workers| && t.workers == s.workers[j := t.workers[j]]
    && t.workers[j].ch == s.workers[j].ch && s.workers[j].phase != Left && s.workers[j].ch < |s.chans|
    && (t.workers[j].phase == Left ==> s.chans[s.workers[j].ch] == Channel([], true))
    && t.netlinkers == s.netlinkers && |t.chans| == |s.chans|
    && (forall g :: 0 <= g < |s.chans| ==>
        t.chans[g].closed == s.chans[g].closed && |t.chans[g].buf| <= |s.chans[g].buf|)
    && t == s.(chans := t.chans, workers := t.workers, trace := t.trace)
  }

  function WorkerOf(e: Event): nat
    requires WorkerEvent(e)
  {
    match e
    case Dequeue(j) => j
    case Process(j) => j
    case Leave(j) => j
  }

  lemma WorkerSteps(c: Config, s: State, e: Event)
    requires Enabled(c, s, e) && WorkerEvent(e) && Exec(c, s, e).crash == Alive
    ensures WorkerFrame(s, Exec(c, s, e), WorkerOf(e))
  {
    hide MessagePanics;
  }

  lemma WorkerKeepsStructure(c: Config, s: State, t: State, j: nat)
    requires Structured(c, s) && WorkerFrame(s, t, j)
    ensures Structured(c, t)
  {
    hide MaxLoopsOrForEver;
  }

  lemma HandoffKeepsStructure(c: Config, s: State, i: nat, j: nat)
    requires Structured(c, s) && Enabled(c, s, Handoff(i, j))
    ensures Structured(c, Exec(c, s, Handoff(i, j)))
  {
    var t := Exec(c, s, Handoff(i, j));
    var u := Advance(s, i);
    assert NetlinkerFrame(s, u, i);
    NetlinkerKeepsStructure(c, s, u, i);
    assert WorkerFrame(u, t, j);
    WorkerKeepsStructure(c, u, t, j);
    hide *;
  }

  /** Workers are never dropped and never change channel. */
  predicate WorkersKept(s: State, t: State) {
    && |s.workers| <= |t.workers|
    && forall j :: 0 <= j < |s.workers| ==> t.workers[j].ch == s.workers[j].ch
  }

  lemma ExecKeepsWorkers(c: Config, s: State, e: Event)
    requires Enabled(c, s, e)
    ensures var t := Exec(c, s, e);
            && WorkersKept(s, t) && (e != PollerStep ==> |t.chans| == |s.chans|)
            && (e != PollerStep ==> t.pc == s.pc || (t.pc == AwaitNetlinkers && s.pc == AwaitDone))
  {
    hide MessagePanics, Yields;
  }

  lemma ServedKept(s: State, t: State, g: nat)
    requires WorkersKept(s, t) && Served(s, g)
    ensures Served(t, g)
  {
    var j :| 0 <= j < |s.workers| && s.workers[j].ch == g;
    assert t.workers[j].ch == g;
  }

  lemma ExecKeepsServed(c: Config, s: State, e: Event)
    requires Structured(c, s) && ChannelsServed(c, s) && Enabled(c, s, e)
    ensures ChannelsServed(c, Exec(c, s, e))
  {
    var t := Exec(c, s, e);
    ExecKeepsWorkers(c, s, e);
    hide Enabled, Exec, Yields, MessagePanics, Served, WorkersKept;
    if e == PollerStep {
      PollerKeepsServed(c, s, t);
    } else if c.inetdiagers > 0 {
      forall g | 0 <= g < |t.chans| && PastStartUp(t, g)
        ensures Served(t, g)
      {
        ServedKept(s, t, g);
      }
    }
  }

  lemma PollerKeepsServed(c: Config, s: State, t: State)
    requires ChannelsServed(c, s) && ChannelsFit(s) && WorkersKept(s, t) && PollerReady(s) && t == PollerNext(c, s)
    ensures ChannelsServed(c, t)
  {
    if c.inetdiagers > 0 {
      forall g | 0 <= g < |t.chans| && PastStartUp(t, g)
        ensures Served(t, g)
      {
        if |t.workers| > |s.workers| && g == Newest(s) {
          assert t.workers[|s.workers|].ch == g;
        } else {
          ServedKept(s, t, g);
        }
      }
    }
  }

  /** Every step keeps the structural invariant; no step sends on or closes a closed channel. */
  lemma ExecKeepsFits(c: Config, s: State, e: Event)
    requires Fits(c, s) && Enabled(c, s, e)
    ensures Fits(c, Exec(c, s, e))
  {
    var t := Exec(c, s, e);
    ExecKeepsServed(c, s, e);
    if e == PollerStep {
      PollerKeepsStructure(c, s);
    } else if NetlinkerEvent(e) {
      NetlinkerNeverSendsOnClosed(c, s, e);
      if t.crash == Alive {
        NetlinkerSteps(c, s, e);
        NetlinkerKeepsStructure(c, s, t, NetlinkerOf(e));
      }
    } else if e.Handoff? {
      HandoffKeepsStructure(c, s, e.i, e.j);
    } else {
      if t.crash == Alive {
        WorkerSteps(c, s, e);
        WorkerKeepsStructure(c, s, t, WorkerOf(e));
      }
    }
    hide Structured, ChannelsServed, Yields, MessagePanics;
  }
}
