/** A kernel that ends every reply with exactly one DONE: all it sent is processed, once, under its own poll's stamp. */
module Delivery {
  import opened Misc
  import Bytes
  import opened Netlinker
  import opened Pipeline
  import opened Safety
  import opened Conservation

  // ---- The kernel's side ----

  /** What a reception makes a netlinker do when its receive buffer is still zero. */
  function Acts(c: Config, r: Reception): seq<Action> {
    match r
    case Failure => []
    case Datagram(bytes) =>
      if Min(|bytes|, c.bufferSize) < 16 then []
          else SplitReceived(Bytes.Zeros(c.bufferSize), bytes, c.samplingModulus).actions
  }

  /** Stale bytes do not matter to this reception. */
  ghost predicate Determined(c: Config, r: Reception) {
    forall script :: Yields(c, r, script) ==> script == Acts(c, r)
  }

  predicate Clean(script: seq<Action>) {
    Done !in script && Panic !in script
  }

  predicate Ending(script: seq<Action>) {
    script != [] && script[|script| - 1] == Done && Clean(script[..|script| - 1])
  }

  /** The (rest of the) reply to one request: DONE once, as the last thing in the last packet. */
  ghost predicate GoodReply(c: Config, rs: seq<Reception>) {
    && rs != []
    && (forall i :: 0 <= i < |rs| ==> Determined(c, rs[i]))
    && (forall i :: 0 <= i < |rs| - 1 ==> Clean(Acts(c, rs[i])))
    && Ending(Acts(c, rs[|rs| - 1]))
  }

  ghost predicate GoodKernel(c: Config) {
    forall k: nat :: MaxLoopsOrForEver(k, c.maxLoops) ==> GoodReply(c, c.kernel(k))
  }

  function ReplySends(c: Config, stamp: nat, rs: seq<Reception>): multiset<Msg> {
    if rs == [] then multiset{} else Sends(stamp, Acts(c, rs[0])) + ReplySends(c, stamp, rs[1..])
  }

  /** The messages answering the first n requests, those of request k stamped k. */
  function Expected(c: Config, n: nat): multiset<Msg> {
    if n == 0 then multiset{} else Expected(c, n - 1) + ReplySends(c, n - 1, c.kernel(n - 1))
  }

  // ---- Invariants ----

  predicate AllClean(ns: seq<NetlinkerThread>) {
    forall i :: 0 <= i < |ns| ==> CleanThread(ns[i])
  }

  predicate CleanThread(n: NetlinkerThread) {
    n.phase.Acting? ==> Clean(n.phase.script)
  }

  /** Netlinker i alone holds the DONE of this poll. */
  predicate HoldsDone(ns: seq<NetlinkerThread>, i: nat) {
    && i < |ns| && ns[i].phase.Acting? && Ending(ns[i].phase.script)
    && forall k :: 0 <= k < |ns| && k != i ==> CleanThread(ns[k])
  }

  predicate AwaitsDone(pc: PollerPC) {
    pc.StartNetlinkers? || pc == AwaitDone
  }

  /** The poll's DONE is still in the socket, or in exactly one netlinker, until the poller takes it; then neither
      has any. */
  ghost predicate DoneFits(c: Config, s: State) {
    && (AwaitsDone(s.pc) && s.socket != [] ==> GoodReply(c, s.socket))
    && (AwaitsDone(s.pc) && s.socket == [] ==> exists i: nat :: HoldsDone(s.netlinkers, i))
    && (!AwaitsDone(s.pc) ==> s.socket == [])
    && (!AwaitsDone(s.pc) || s.socket != [] ==> AllClean(s.netlinkers))
    && (c.patient && s.socket != [] ==> forall i :: 0 <= i < |s.netlinkers| ==> s.netlinkers[i].phase != Gone)
  }

  predicate Delivered(c: Config, s: State) {
    s.selected + ReplySends(c, s.loops, s.socket) == Expected(c, s.requests)
  }

  // ---- DONE ----

  lemma PollerKeepsDone(c: Config, s: State)
    requires GoodKernel(c) && Structured(c, s) && DoneFits(c, s) && PollerReady(s)
    ensures DoneFits(c, PollerNext(c, s))
  {
    hide GoodReply, Ending, Clean, ChannelsFit, WorkersFit, NetlinkersFit;
    if s.pc == SendRequest {
      assert MaxLoopsOrForEver(s.loops, c.maxLoops) && s.requests == s.loops;
      assert GoodReply(c, c.kernel(s.requests));
      assert s.socket + c.kernel(s.requests) == c.kernel(s.requests);
      assert c.kernel(s.requests) != [] by { NotEmpty(c, c.kernel(s.requests)); }
    } else {
      PollerKeepsDoneElsewhere(c, s);
    }
  }

  lemma NotEmpty(c: Config, rs: seq<Reception>)
    requires GoodReply(c, rs)
    ensures rs != []
  {
  }

  lemma PollerKeepsDoneElsewhere(c: Config, s: State)
    requires DoneFits(c, s) && PollerReady(s) && s.pc != SendRequest
    ensures DoneFits(c, PollerNext(c, s))
  {
    hide GoodReply, Ending, Clean, MaxLoopsOrForEver;
    var t := PollerNext(c, s);
    if AwaitsDone(s.pc) && s.socket == [] {
      var i: nat :| HoldsDone(s.netlinkers, i);
      assert HoldsDone(t.netlinkers, i);
    }
  }

  lemma SendingOn(script: seq<Action>)
    requires script != [] && script[0].Send?
    ensures Clean(script) ==> Clean(script[1..])
    ensures Ending(script) ==> Ending(script[1..])
  {
    if Ending(script) {
      assert |script| > 1;
      var tail := script[1..];
      assert tail[..|tail| - 1] == script[..|script| - 1][1..];
    }
  }

  /** A netlinker moves without touching the socket or the DONE it may hold. */
  lemma QuietKeepsDone(c: Config, s: State, t: State, i: nat)
    requires DoneFits(c, s) && t.pc == s.pc && t.socket == s.socket
    requires i < |s.netlinkers| && |t.netlinkers| == |s.netlinkers|
    requires t.netlinkers == s.netlinkers[i := t.netlinkers[i]]
    requires CleanThread(s.netlinkers[i]) ==> CleanThread(t.netlinkers[i])
    requires s.netlinkers[i].phase.Acting? && Ending(s.netlinkers[i].phase.script)
      ==> t.netlinkers[i].phase.Acting? && Ending(t.netlinkers[i].phase.script)
    requires c.patient && s.socket != [] ==> t.netlinkers[i].phase != Gone
    ensures DoneFits(c, t)
  {
    hide GoodReply, Ending, Clean, CleanThread;
    if AwaitsDone(s.pc) && s.socket == [] {
      var k: nat :| HoldsDone(s.netlinkers, k);
      assert HoldsDone(t.netlinkers, k);
    }
  }

  lemma NetlinkerKeepsDone(c: Config, s: State, e: Event)
    requires DoneFits(c, s) && Enabled(c, s, e) && (e.Timeout? || e.NextPacket? || e.Enqueue? || e.NetlinkerPanic?)
    ensures DoneFits(c, Exec(c, s, e))
  {
    hide DoneFits, Yields;
    if e.Enqueue? { SendingOn(s.netlinkers[e.i].phase.script); }
    QuietKeepsDone(c, s, Exec(c, s, e), NetlinkerOf(e));
  }

  lemma HandoffKeepsDone(c: Config, s: State, e: Event)
    requires DoneFits(c, s) && Enabled(c, s, e) && e.Handoff?
    ensures DoneFits(c, Exec(c, s, e))
  {
    hide DoneFits;
    SendingOn(s.netlinkers[e.i].phase.script);
    hide Ending, Clean;
    QuietKeepsDone(c, s, Exec(c, s, e), e.i);
  }

  /** What the next packet makes of its receiver is settled before it is received. */
  lemma ReceivedScript(c: Config, s: State, e: Event)
    requires DoneFits(c, s) && Enabled(c, s, e) && e.Receive?
    ensures AwaitsDone(s.pc) && s.socket != [] && e.script == Acts(c, s.socket[0])
    ensures AllClean(s.netlinkers) && GoodReply(c, s.socket)
    ensures var t := Exec(c, s, e);
            t.pc == s.pc && t.socket == s.socket[1..] && e.i < |s.netlinkers| && s.netlinkers[e.i].phase == Receiving
            && t.netlinkers == s.netlinkers[e.i := s.netlinkers[e.i].(phase := Acting(e.script))]
            && (c.patient && s.socket != [] ==> forall k :: 0 <= k < |t.netlinkers| ==> t.netlinkers[k].phase != Gone)
  {
    assert Determined(c, s.socket[0]);
    hide Yields, Acts, Ending, Clean, CleanThread;
  }

  lemma ReceiveKeepsDone(c: Config, s: State, e: Event)
    requires DoneFits(c, s) && Enabled(c, s, e) && e.Receive?
    ensures DoneFits(c, Exec(c, s, e))
  {
    var t := Exec(c, s, e);
    ReceivedScript(c, s, e);
    hide *;
    if |s.socket| == 1 {
      LastOfReply(c, s.socket);
      LastPacket(c, s, t, e.i, e.script);
    } else {
      GoodTail(c, s.socket);
      MorePackets(c, s, t, e.i, e.script);
    }
  }

  lemma LastPacket(c: Config, s: State, t: State, i: nat, script: seq<Action>)
    requires AllClean(s.netlinkers) && AwaitsDone(s.pc) && t.pc == s.pc && t.socket == []
    requires i < |s.netlinkers| && t.netlinkers == s.netlinkers[i := s.netlinkers[i].(phase := Acting(script))]
    requires Ending(script)
    ensures DoneFits(c, t)
  {
    hide GoodReply, Ending, CleanThread;
    assert HoldsDone(t.netlinkers, i);
  }

  lemma MorePackets(c: Config, s: State, t: State, i: nat, script: seq<Action>)
    requires AllClean(s.netlinkers) && AwaitsDone(s.pc) && t.pc == s.pc && GoodReply(c, t.socket)
    requires i < |s.netlinkers| && t.netlinkers == s.netlinkers[i := s.netlinkers[i].(phase := Acting(script))]
    requires Clean(script) && (c.patient ==> forall k :: 0 <= k < |t.netlinkers| ==> t.netlinkers[k].phase != Gone)
    ensures DoneFits(c, t)
  {
    NotEmpty(c, t.socket);
    hide GoodReply, Clean;
  }

  lemma LastOfReply(c: Config, rs: seq<Reception>)
    requires GoodReply(c, rs) && |rs| == 1
    ensures Ending(Acts(c, rs[0]))
  {
  }

  lemma GoodTail(c: Config, rs: seq<Reception>)
    requires GoodReply(c, rs) && |rs| > 1
    ensures GoodReply(c, rs[1..]) && Clean(Acts(c, rs[0]))
  {
    hide Determined, Acts, Clean, Ending;
    var tail := rs[1..];
    assert forall i :: 0 <= i < |tail| ==> tail[i] == rs[i + 1];
  }

  lemma HeadOfScript(script: seq<Action>)
    requires script != []
    ensures Ending(script) && script[0] == Done ==> script == [Done]
    ensures Clean(script) ==> script[0] != Done && script[0] != Panic
    ensures Ending(script) ==> script[0] != Panic
  {
    if |script| > 1 {
      assert script[..|script| - 1][0] == script[0];
    }
  }

  lemma TakeDoneKeepsDone(c: Config, s: State, e: Event)
    requires DoneFits(c, s) && Enabled(c, s, e) && e.TakeDone?
    ensures DoneFits(c, Exec(c, s, e))
  {
    var script := s.netlinkers[e.i].phase.script;
    HeadOfScript(script);
    hide GoodReply, Ending;
    assert !CleanThread(s.netlinkers[e.i]);
    var k: nat :| HoldsDone(s.netlinkers, k);
    assert k == e.i && script[1..] == [];
    hide Clean;
    assert Clean([]) by { NoScript(); }
  }

  lemma NoScript()
    ensures Clean([])
  {
  }

  lemma ExecKeepsDone(c: Config, s: State, e: Event)
    requires GoodKernel(c) && Structured(c, s) && DoneFits(c, s) && Enabled(c, s, e)
    ensures DoneFits(c, Exec(c, s, e))
  {
    if e == PollerStep {
      PollerKeepsDone(c, s);
    } else if e.TakeDone? {
      TakeDoneKeepsDone(c, s, e);
    } else if e.Receive? {
      assert NetlinkersFit(c, s);
      ReceiveKeepsDone(c, s, e);
    } else if e.Handoff? {
      HandoffKeepsDone(c, s, e);
    } else if NetlinkerEvent(e) {
      NetlinkerKeepsDone(c, s, e);
    } else {
      hide Structured, GoodReply, HoldsDone, CleanThread, MessagePanics;
    }
  }

  lemma ScriptsEndWell(c: Config, s: State, i: nat)
    requires DoneFits(c, s) && i < |s.netlinkers| && s.netlinkers[i].phase.Acting?
    ensures Clean(s.netlinkers[i].phase.script) || (AwaitsDone(s.pc) && s.socket == [] && HoldsDone(s.netlinkers, i))
  {
    hide GoodReply, Ending, Clean;
    if AwaitsDone(s.pc) && s.socket == [] {
      var k: nat :| HoldsDone(s.netlinkers, k);
      assert k != i ==> CleanThread(s.netlinkers[i]);
    } else {
      assert CleanThread(s.netlinkers[i]);
    }
  }

  /** A well-behaved kernel never makes a netlinker panic. */
  lemma NetlinkersNeverPanic(c: Config, s: State, i: nat)
    requires DoneFits(c, s)
    ensures !Enabled(c, s, NetlinkerPanic(i))
  {
    if Facing(s, i) {
      ScriptsEndWell(c, s, i);
      HeadOfScript(s.netlinkers[i].phase.script);
    }
    hide DoneFits, Ending, Clean;
  }

  // ---- Delivery ----

  lemma PollerDelivers(c: Config, s: State)
    requires CountsFit(c, s) && Delivered(c, s) && PollerReady(s)
    requires !AwaitsDone(s.pc) ==> s.socket == []
    ensures Delivered(c, PollerNext(c, s))
  {
    if s.pc == SendRequest {
      assert s.requests == s.loops by { hide Delivered, MaxLoopsOrForEver; }
      hide CountsFit, Delivered;
      RequestDelivers(c, s);
    } else {
      PollerKeepsSent(s, c);
      NothingToReceive(c, s.loops);
      NothingToReceive(c, s.loops + 1);
      hide ReplySends, Expected, CountsFit, PollerNext;
    }
  }

  lemma PollerKeepsSent(s: State, c: Config)
    requires PollerReady(s) && s.pc != SendRequest
    ensures var t := PollerNext(c, s);
            t.selected == s.selected && t.requests == s.requests && t.socket == s.socket
            && (t.loops == s.loops || (s.pc == AwaitTick && t.loops == s.loops + 1))
  {
    hide MaxLoopsOrForEver;
  }

  lemma NothingToReceive(c: Config, stamp: nat)
    ensures ReplySends(c, stamp, []) == multiset{}
  {
  }

  lemma RequestDelivers(c: Config, s: State)
    requires s.pc == SendRequest && s.requests == s.loops && s.socket == [] && Delivered(c, s)
    ensures Delivered(c, PollerNext(c, s))
  {
    RequestMoves(c, s);
    hide *;
    AllReceived(c, s);
    RequestExpected(c, s.requests);
    DeliveredIs(c, PollerNext(c, s), ReplySends(c, s.requests, c.kernel(s.requests)), Expected(c, s.requests));
  }

  lemma RequestMoves(c: Config, s: State)
    requires s.pc == SendRequest && s.requests == s.loops && s.socket == []
    ensures var t := PollerNext(c, s);
            t.selected == s.selected && t.socket == c.kernel(s.requests) && t.loops == s.requests
                && t.requests == s.requests + 1
  {
    assert [] + c.kernel(s.requests) == c.kernel(s.requests);
  }

  lemma DeliveredIs(c: Config, t: State, reply: multiset<Msg>, before: multiset<Msg>)
    requires t.selected == before && ReplySends(c, t.loops, t.socket) == reply
    requires Expected(c, t.requests) == before + reply
    ensures Delivered(c, t)
  {
    hide ReplySends, Expected;
  }

  lemma RequestExpected(c: Config, k: nat)
    ensures Expected(c, k + 1) == Expected(c, k) + ReplySends(c, k, c.kernel(k))
  {
  }

  lemma AllReceived(c: Config, s: State)
    requires s.socket == [] && Delivered(c, s)
    ensures s.selected == Expected(c, s.requests)
  {
    assert ReplySends(c, s.loops, []) == multiset{};
    hide Expected, ReplySends;
  }

  lemma ReceiveDelivers(c: Config, s: State, e: Event)
    requires NetlinkersFit(c, s) && DoneFits(c, s) && Delivered(c, s) && Enabled(c, s, e) && e.Receive?
    ensures Delivered(c, Exec(c, s, e))
  {
    ReceivedScript(c, s, e);
    ReceivedMessages(c, s, e);
    FirstOfReply(c, s.loops, s.socket);
    hide *;
    MovedFromSocket(c, s, Exec(c, s, e), Sends(s.loops, e.script));
  }

  lemma ReceivedMessages(c: Config, s: State, e: Event)
    requires NetlinkersFit(c, s) && Enabled(c, s, e) && e.Receive?
    ensures var t := Exec(c, s, e);
            t.selected == s.selected + Sends(s.loops, e.script) && t.loops == s.loops && t.requests == s.requests
  {
    hide Yields, Sends;
  }

  lemma FirstOfReply(c: Config, stamp: nat, rs: seq<Reception>)
    ensures rs != [] ==> ReplySends(c, stamp, rs) == Sends(stamp, Acts(c, rs[0])) + ReplySends(c, stamp, rs[1..])
  {
  }

  lemma MovedFromSocket(c: Config, s: State, t: State, now: multiset<Msg>)
    requires Delivered(c, s) && t.selected == s.selected + now && t.loops == s.loops && t.requests == s.requests
    requires ReplySends(c, s.loops, s.socket) == now + ReplySends(c, s.loops, t.socket)
    ensures Delivered(c, t)
  {
    hide ReplySends, Expected;
  }

  lemma ExecDelivers(c: Config, s: State, e: Event)
    requires Structured(c, s) && DoneFits(c, s) && Delivered(c, s) && Enabled(c, s, e)
    ensures Delivered(c, Exec(c, s, e))
  {
    if e == PollerStep {
      assert !AwaitsDone(s.pc) ==> s.socket == [];
      PollerDelivers(c, s);
      hide DoneFits, Delivered, PollerNext;
    } else if e.Receive? {
      ReceiveDelivers(c, s, e);
      hide DoneFits, Delivered, Structured, Exec;
    } else {
      OthersDeliver(c, s, e);
      hide DoneFits, Delivered, Structured, Exec;
    }
  }

  lemma OthersDeliver(c: Config, s: State, e: Event)
    requires Delivered(c, s) && Enabled(c, s, e) && e != PollerStep && !e.Receive?
    ensures Delivered(c, Exec(c, s, e))
  {
    hide Yields, ReplySends, Expected, MessagePanics;
  }

  lemma InitDelivers(c: Config)
    ensures DoneFits(c, INIT) && Delivered(c, INIT)
  {
  }

  ghost predicate Good(c: Config, s: State) {
    Fits(c, s) && Conserved(s) && (s.crash == Alive ==> DoneFits(c, s) && Delivered(c, s))
  }

  lemma StepIsGood(c: Config, s: State, t: State)
    requires GoodKernel(c) && Good(c, s) && Next(c, s, t)
    ensures Good(c, t)
  {
    StepIsSafe(c, s, t);
    var e :| Enabled(c, s, e) && t == Exec(c, s, e);
    ExecKeepsDone(c, s, e);
    ExecDelivers(c, s, e);
  }

  lemma {:induction false} RunsAreGood(c: Config, run: seq<State>)
    requires GoodKernel(c) && IsRun(c, run)
    ensures Good(c, run[|run| - 1])
    decreases |run|
  {
    hide Next, Good, Fits, Conserved, GoodKernel;
    var n := |run| - 1;
    if n == 0 {
      InitIsGood(c);
    } else {
      RunPrefix(c, run);
      RunsAreGood(c, run[..n]);
      hide *;
      StepIsGood(c, run[n - 1], run[n]);
    }
  }

  lemma InitIsGood(c: Config)
    ensures Good(c, INIT)
  {
    InitFits(c);
    InitConserved();
    InitDelivers(c);
  }

  lemma ReachableIsGood(c: Config, s: State)
    requires GoodKernel(c) && Reachable(c, s)
    ensures Good(c, s)
  {
    hide Next, Good;
    var run: seq<State> :| IsRun(c, run) && run[|run| - 1] == s;
    RunsAreGood(c, run);
  }

  /** Exactly-once delivery: whenever cleanWorkerShutdown has returned, the workers have processed what the kernel sent
      so far, each message once and under the stamp of the poll whose request it answers. */
  lemma DeliveredAtShutdown(c: Config, s: State)
    requires GoodKernel(c) && Reachable(c, s) && s.crash == Alive && ShutDown(s) && c.inetdiagers > 0
    ensures Total(s.workers, Processed) == Expected(c, s.requests) && s.dones == s.requests
  {
    ReachableIsGood(c, s);
    ShutdownProcessesAll(c, s);
    NothingUnread(c, s);
    hide *;
  }

  lemma NothingUnread(c: Config, s: State)
    requires Good(c, s) && s.crash == Alive && ShutDown(s)
    ensures s.selected == Expected(c, s.requests) && s.dones == s.requests
  {
    assert s.socket == [] by { hide GoodReply, Fits, Conserved, Delivered; }
    assert s.dones == s.requests by {
      hide Conserved, DoneFits, Delivered, ChannelsFit, WorkersFit, NetlinkersFit, ChannelsServed;
    }
    DeliveredDrained(c, s);
    hide *;
  }

  lemma DeliveredDrained(c: Config, s: State)
    requires Good(c, s) && s.crash == Alive && s.socket == []
    ensures s.selected == Expected(c, s.requests)
  {
    hide Fits, Conserved, DoneFits, Expected;
  }

  /** At the end that is all of maxLoops + 1 polls. */
  lemma EverythingDelivered(c: Config, s: State)
    requires GoodKernel(c) && Reachable(c, s) && s.crash == Alive && s.pc == Finished && c.inetdiagers > 0
    ensures Total(s.workers, Processed) == Expected(c, s.requests)
    ensures s.requests == s.dones == if c.maxLoops < 0 then 0 else c.maxLoops + 1
  {
    DeliveredAtShutdown(c, s);
    ReachableIsSafe(c, s);
    CountAtEnd(c, s);
    hide *;
  }

  lemma CountAtEnd(c: Config, s: State)
    requires Fits(c, s) && s.crash == Alive && s.pc == Finished
    ensures s.requests == s.dones == if c.maxLoops < 0 then 0 else c.maxLoops + 1
  {
  }

  /** One dump in flight: when a request goes out, every earlier one has had its DONE taken, no netlinker lives,
      and nothing of an earlier reply is left to receive. */
  lemma OneDumpInFlight(c: Config, s: State)
    requires Reachable(c, s) && s.crash == Alive && s.pc == SendRequest
    ensures s.dones == s.requests == s.loops && AllGone(s.netlinkers) && Open(s)
    ensures GoodKernel(c) ==> s.socket == []
  {
    ReachableIsSafe(c, s);
    if GoodKernel(c) { ReachableIsGood(c, s); }
    hide Reachable, GoodKernel, GoodReply, Conserved, Delivered;
  }
}
