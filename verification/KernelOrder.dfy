/** Messages against the kernel's order: what is picked, and what single threads make of it. */
module KernelOrder {
  import opened Misc
  import opened Netlinker
  import opened Pipeline
  import opened Safety
  import opened Conservation
  import opened Incarnations
  import opened Delivery
  import opened Order

  // ---- Picked in the kernel's order ----

  function ReplySeq(c: Config, stamp: nat, rs: seq<Reception>): seq<Msg> {
    if rs == [] then [] else Outgoing(stamp, Acts(c, rs[0])) + ReplySeq(c, stamp, rs[1..])
  }

  /** The messages answering the first n requests as the kernel sent them, those of request k stamped k. */
  function ExpectedSeq(c: Config, n: nat): seq<Msg> {
    if n == 0 then [] else ExpectedSeq(c, n - 1) + ReplySeq(c, n - 1, c.kernel(n - 1))
  }

  predicate PickedInOrder(c: Config, s: State) {
    Msgs(s.trace.picked) + ReplySeq(c, s.loops, s.socket) == ExpectedSeq(c, s.requests)
  }

  lemma ReceivePicksNext(c: Config, s: State, e: Event)
    requires NetlinkersFit(c, s) && DoneFits(c, s) && PickedInOrder(c, s) && Enabled(c, s, e) && e.Receive?
    ensures PickedInOrder(c, Exec(c, s, e))
  {
    ReceivedScript(c, s, e);
    ReceivePicks(c, s, e);
    ReceiverIsCurrent(c, s, e);
    hide *;
    OutgoingStamped(s.loops, e.script);
    ManyMore(s.trace.picked, e.i, Outgoing(s.loops, e.script), s.loops);
    NextReception(c, s.loops, s.socket);
    Moved(c, s, Exec(c, s, e), Outgoing(s.loops, e.script));
  }

  lemma ReceiverIsCurrent(c: Config, s: State, e: Event)
    requires NetlinkersFit(c, s) && Enabled(c, s, e) && e.Receive?
    ensures var t := Exec(c, s, e); s.netlinkers[e.i].stamp == s.loops == t.loops && t.requests == s.requests
  {
    hide Yields, Outgoing, TagAll, Sends;
  }

  lemma NextReception(c: Config, stamp: nat, rs: seq<Reception>)
    ensures rs != [] ==> ReplySeq(c, stamp, rs) == Outgoing(stamp, Acts(c, rs[0])) + ReplySeq(c, stamp, rs[1..])
    ensures ReplySeq(c, stamp, []) == []
  {
  }

  lemma Moved(c: Config, s: State, t: State, now: seq<Msg>)
    requires PickedInOrder(c, s) && Msgs(t.trace.picked) == Msgs(s.trace.picked) + now
    requires t.loops == s.loops && t.requests == s.requests
    requires ReplySeq(c, s.loops, s.socket) == now + ReplySeq(c, s.loops, t.socket)
    ensures PickedInOrder(c, t)
  {
    hide Msgs, ReplySeq, ExpectedSeq;
    var p, l := Msgs(s.trace.picked), ReplySeq(c, s.loops, t.socket);
    assert (p + now) + l == p + (now + l);
  }

  lemma PollerPicksNothing(c: Config, s: State)
    requires CountsFit(c, s) && PickedInOrder(c, s) && PollerReady(s) && (!AwaitsDone(s.pc) ==> s.socket == [])
    ensures PickedInOrder(c, PollerNext(c, s))
  {
    assert s.pc == SendRequest ==> s.requests == s.loops && s.socket == [] by { hide PickedInOrder, MaxLoopsOrForEver; }
    assert s.pc == AwaitTick ==> s.socket == [];
    hide *;
    PollerKeepsTrace(c, s);
    if s.pc == SendRequest {
      RequestMoves(c, s);
      RequestToPick(c, s, PollerNext(c, s));
    } else {
      PollerKeepsSent(s, c);
      NothingToPick(c, s, PollerNext(c, s));
    }
  }

  lemma PollerKeepsTrace(c: Config, s: State)
    requires PollerReady(s)
    ensures PollerNext(c, s).trace == s.trace
  {
    hide MaxLoopsOrForEver;
  }

  lemma RequestToPick(c: Config, s: State, t: State)
    requires PickedInOrder(c, s) && s.requests == s.loops && s.socket == [] && t.trace == s.trace
    requires t.socket == c.kernel(s.requests) && t.loops == s.requests && t.requests == s.requests + 1
    ensures PickedInOrder(c, t)
  {
    hide Msgs;
    NextReception(c, s.loops, []);
    assert ExpectedSeq(c, t.requests) == ExpectedSeq(c, s.requests) + ReplySeq(c, s.requests, c.kernel(s.requests));
    hide ReplySeq, ExpectedSeq;
  }

  lemma NothingToPick(c: Config, s: State, t: State)
    requires PickedInOrder(c, s) && t.trace == s.trace && t.socket == s.socket && t.requests == s.requests
    requires t.loops == s.loops || s.socket == []
    ensures PickedInOrder(c, t)
  {
    hide Msgs, ReplySeq, ExpectedSeq;
    NextReception(c, s.loops, []);
    NextReception(c, t.loops, []);
  }

  lemma OthersPickNothing(c: Config, s: State, e: Event)
    requires PickedInOrder(c, s) && Enabled(c, s, e) && e != PollerStep && !e.Receive?
    ensures PickedInOrder(c, Exec(c, s, e))
  {
    hide Yields, Msgs, ReplySeq, ExpectedSeq, MessagePanics;
  }

  lemma NextPicksInOrder(c: Config, s: State, t: State)
    requires Good(c, s) && PickedInOrder(c, s) && Next(c, s, t)
    ensures PickedInOrder(c, t)
  {
    var e :| Enabled(c, s, e) && t == Exec(c, s, e);
    GoodCounts(c, s);
    assert s.crash == Alive;
    hide Good, PickedInOrder;
    if e == PollerStep {
      PollerPicksNothing(c, s);
    } else if e.Receive? {
      ReceivePicksNext(c, s, e);
    } else {
      OthersPickNothing(c, s, e);
    }
  }

  lemma GoodCounts(c: Config, s: State)
    requires Good(c, s)
    ensures s.crash == Alive ==> CountsFit(c, s) && NetlinkersFit(c, s) && DoneFits(c, s)
    ensures s.crash == Alive && !AwaitsDone(s.pc) ==> s.socket == []
  {
    hide ChannelsFit, WorkersFit, ChannelsServed, Conserved, Delivered, CountsFit, NetlinkersFit, GoodReply;
  }

  lemma InitPickedInOrder(c: Config, run: seq<State>)
    requires IsRun(c, run)
    ensures run != [] && PickedInOrder(c, run[0])
  {
    hide Next;
  }

  lemma {:induction false} RunsPickInOrder(c: Config, run: seq<State>)
    requires GoodKernel(c) && IsRun(c, run)
    ensures PickedInOrder(c, run[|run| - 1])
    decreases |run|
  {
    hide *;
    var n := |run| - 1;
    if n <= 0 {
      InitPickedInOrder(c, run);
    } else {
      RunPrefix(c, run);
      RunsPickInOrder(c, run[..n]);
      RunsAreGood(c, run[..n]);
      NextPicksInOrder(c, run[n - 1], run[n]);
    }
  }

  /** Given well-formed replies, the netlinkers together pick the sampled messages in the kernel's order. */
  lemma PickedInKernelOrder(c: Config, s: State)
    requires GoodKernel(c) && Reachable(c, s)
    ensures Msgs(s.trace.picked) + ReplySeq(c, s.loops, s.socket) == ExpectedSeq(c, s.requests)
  {
    hide *;
    var path := PathTo(c, s);
    RunsPickInOrder(c, path);
    PickedIs(c, s);
  }

  lemma PickedIs(c: Config, s: State)
    requires PickedInOrder(c, s)
    ensures Msgs(s.trace.picked) + ReplySeq(c, s.loops, s.socket) == ExpectedSeq(c, s.requests)
  {
    hide Msgs, ReplySeq, ExpectedSeq;
  }

  // ---- A single inetdiager ----

  /** What the inetdiagers have taken, incarnation after incarnation. */
  function Works(ws: seq<WorkerThread>): seq<Msg> {
    if ws == [] then [] else Works(ws[..|ws| - 1]) + InHand(ws[|ws| - 1])
  }

  /** One worker for each channel, and the order of their work is the order of taking. */
  predicate SingleWorker(s: State) {
    && |s.workers| == |s.chans| - (if s.pc == StartInetdiagers(0) then 1 else 0)
    && (forall j :: 0 <= j < |s.workers| ==> s.workers[j].ch == j)
    && Msgs(s.trace.taken) == Works(s.workers)
  }

  lemma LastWorks(ws: seq<WorkerThread>, w: WorkerThread)
    requires ws != []
    ensures var n := |ws| - 1;
            && Works(ws) == Works(ws[..n]) + InHand(ws[n])
            && Works(ws[n := w]) == Works(ws[..n]) + InHand(w)
  {
    var n := |ws| - 1;
    assert ws[n := w][..n] == ws[..n];
  }

  lemma NewWorks(ws: seq<WorkerThread>, w: WorkerThread)
    ensures Works(ws + [w]) == Works(ws) + InHand(w)
  {
    assert (ws + [w])[..|ws|] == ws;
  }

  /** The worker that can act is the last. */
  lemma ActorIsLast(c: Config, s: State, j: nat)
    requires Fits(c, s) && s.crash == Alive && SingleWorker(s) && HasWorker(s, j) && s.workers[j].phase != Left
    ensures j == |s.workers| - 1
  {
    hide CountsFit, NetlinkersFit, ChannelsServed, Msgs, Works;
  }

  lemma LastTakes(s: State, t: State, j: nat, m: Msg)
    requires SingleWorker(s) && j == |s.workers| - 1 && s.workers[j].phase == Idle
    requires t.workers == s.workers[j := s.workers[j].(phase := Holding(m))]
    requires t.trace.taken == s.trace.taken + [Tagged(j, m)] && |t.chans| == |s.chans| && t.pc == s.pc
    ensures SingleWorker(t)
  {
    OneMore(s.trace.taken, Tagged(j, m));
    LastWorks(s.workers, s.workers[j].(phase := Holding(m)));
    hide Msgs, Works;
    var p, q := Works(s.workers[..j]), s.workers[j].processed;
    assert (p + q) + [m] == p + (q + [m]);
  }

  lemma LastStays(s: State, t: State, j: nat)
    requires SingleWorker(s) && j == |s.workers| - 1 && |t.workers| == |s.workers|
    requires t.workers == s.workers[j := t.workers[j]]
    requires InHand(t.workers[j]) == InHand(s.workers[j]) && t.workers[j].ch == s.workers[j].ch
    requires t.trace.taken == s.trace.taken && |t.chans| == |s.chans| && t.pc == s.pc
    ensures SingleWorker(t)
  {
    LastWorks(s.workers, t.workers[j]);
    hide Msgs, Works, InHand;
  }

  lemma PollerKeepsSingle(c: Config, s: State)
    requires c.inetdiagers == 1 && Fits(c, s) && s.crash == Alive && SingleWorker(s) && PollerReady(s)
    ensures SingleWorker(PollerNext(c, s))
  {
    NewWorks(s.workers, WorkerThread(Newest(s), Idle, []));
    hide Fits, Msgs, Works;
  }

  lemma WorkKeepsSingle(c: Config, s: State, e: Event)
    requires Fits(c, s) && SingleWorker(s) && Enabled(c, s, e) && (e.Process? || e.Leave?)
    requires Exec(c, s, e).crash == Alive
    ensures SingleWorker(Exec(c, s, e))
  {
    var t, j := Exec(c, s, e), WorkerOf(e);
    WorkerIdles(c, s, e);
    OthersStartNothing(c, s, e);
    assert t.workers[j].ch == s.workers[j].ch && t.pc == s.pc && HasWorker(s, j) && s.workers[j].phase != Left
           && s.crash == Alive
      by { hide MessagePanics, Fits, SingleWorker; }
    hide Enabled, Exec, Fits, SingleWorker;
    ActorIsLast(c, s, j);
    LastStays(s, t, j);
  }

  lemma TakeKeepsSingle(c: Config, s: State, e: Event)
    requires Fits(c, s) && SingleWorker(s) && Enabled(c, s, e) && (e.Handoff? || e.Dequeue?)
    ensures SingleWorker(Exec(c, s, e))
  {
    var t := Exec(c, s, e);
    assert s.crash == Alive && t.pc == s.pc by { hide Fits, SingleWorker; }
    OthersStartNothing(c, s, e);
    if e.Handoff? { HandoffMoves(c, s, e); } else { DequeueTakes(c, s, e); }
    hide Enabled, Exec, Fits, SingleWorker;
    ActorIsLast(c, s, e.j);
    var m := if e.Handoff? then Msg(s.netlinkers[e.i].stamp, Head(s, e.i).body) else s.chans[s.workers[e.j].ch].buf[0];
    LastTakes(s, t, e.j, m);
  }

  lemma OthersKeepSingle(c: Config, s: State, e: Event)
    requires SingleWorker(s) && Enabled(c, s, e) && NetlinkerEvent(e)
    ensures SingleWorker(Exec(c, s, e))
  {
    OthersStartNothing(c, s, e);
    hide Yields, Msgs, Works, TagAll, Outgoing, Sends;
  }

  lemma NextKeepsSingle(c: Config, s: State, t: State)
    requires c.inetdiagers == 1 && Fits(c, s) && SingleWorker(s) && Next(c, s, t)
    ensures SingleWorker(t)
  {
    var e :| Enabled(c, s, e) && t == Exec(c, s, e);
    hide Fits, SingleWorker;
    if e == PollerStep {
      PollerKeepsSingle(c, s);
    } else if e.Handoff? || e.Dequeue? {
      TakeKeepsSingle(c, s, e);
    } else if NetlinkerEvent(e) {
      OthersKeepSingle(c, s, e);
    } else if t.crash == Alive {
      WorkKeepsSingle(c, s, e);
    } else {
      CrashKeepsSingle(c, s, e);
    }
  }

  lemma CrashKeepsSingle(c: Config, s: State, e: Event)
    requires SingleWorker(s) && Enabled(c, s, e) && WorkerEvent(e) && Exec(c, s, e).crash != Alive
    ensures SingleWorker(Exec(c, s, e))
  {
    hide MessagePanics, Msgs, Works;
  }

  lemma {:induction false} RunsAreSingle(c: Config, run: seq<State>)
    requires c.inetdiagers == 1 && IsRun(c, run)
    ensures SingleWorker(run[|run| - 1])
    decreases |run|
  {
    var n := |run| - 1;
    if n > 0 {
      hide *;
      RunPrefix(c, run);
      RunsAreSingle(c, run[..n]);
      RunsAreSafe(c, run[..n]);
      NextKeepsSingle(c, run[n - 1], run[n]);
    }
  }

  // ---- A single netlinker ----

  function UnsentNow(s: State): seq<Msg> {
    if s.netlinkers == [] then [] else Unsent(s.netlinkers[0])
  }

  predicate SingleNetlinker(s: State) {
    |s.netlinkers| <= 1 && Msgs(s.trace.picked) == Msgs(s.trace.sent) + UnsentNow(s)
  }

  lemma PollerKeepsOne(c: Config, s: State)
    requires c.netlinkers == 1 && NetlinkersFit(c, s) && SingleNetlinker(s) && PollerReady(s)
    ensures SingleNetlinker(PollerNext(c, s))
  {
    var t := PollerNext(c, s);
    PollerNetlinkers(c, s);
    PollerKeepsTrace(c, s);
    hide PollerNext, PollerReady, NetlinkersFit, Msgs, Unsent;
    assert UnsentNow(t) == UnsentNow(s);
  }

  lemma PollerNetlinkers(c: Config, s: State)
    requires c.netlinkers == 1 && NetlinkersFit(c, s) && |s.netlinkers| <= 1 && PollerReady(s)
    ensures |PollerNext(c, s).netlinkers| <= 1 && UnsentNow(PollerNext(c, s)) == UnsentNow(s)
  {
    hide MaxLoopsOrForEver, Outgoing;
    assert s.pc == SendRequest ==> AllGone(s.netlinkers);
  }

  lemma SendKeepsOne(s: State, t: State, i: nat)
    requires SingleNetlinker(s) && Facing(s, i) && Head(s, i).Send?
    requires var n := s.netlinkers[i];
             && t.netlinkers == s.netlinkers[i := n.(phase := Acting(n.phase.script[1..]))]
             && t.trace.picked == s.trace.picked
             && t.trace.sent == s.trace.sent + [Tagged(i, Msg(n.stamp, Head(s, i).body))]
    ensures SingleNetlinker(t)
  {
    hide Msgs, Outgoing, Unsent;
    var n := s.netlinkers[i];
    var m := Msg(n.stamp, Head(s, i).body);
    OneMore(s.trace.sent, Tagged(i, m));
    FirstUnsent(n);
    assert i == 0 && UnsentNow(s) == [m] + UnsentNow(t);
    assert Msgs(s.trace.sent) + ([m] + UnsentNow(t)) == (Msgs(s.trace.sent) + [m]) + UnsentNow(t);
  }

  lemma FirstUnsent(n: NetlinkerThread)
    requires n.phase.Acting? && n.phase.script != [] && n.phase.script[0].Send?
    ensures Unsent(n)
         == [Msg(n.stamp, n.phase.script[0].body)] + Unsent(n.(phase := Acting(n.phase.script[1..])))
  {
    OutgoingStep(n.stamp, n.phase.script);
    hide Outgoing;
  }

  lemma PickKeepsOne(s: State, t: State, i: nat, script: seq<Action>)
    requires SingleNetlinker(s) && i < |s.netlinkers| && s.netlinkers[i].phase == Receiving
    requires var n := s.netlinkers[i];
             && t.netlinkers == s.netlinkers[i := n.(phase := Acting(script))]
             && t.trace == s.trace.(picked := s.trace.picked + TagAll(i, Outgoing(n.stamp, script)))
    ensures SingleNetlinker(t)
  {
    hide Msgs, Outgoing, TagAll, ByPoll;
    var n := s.netlinkers[i];
    OutgoingStamped(n.stamp, script);
    ManyMore(s.trace.picked, i, Outgoing(n.stamp, script), n.stamp);
    assert i == 0 && UnsentNow(s) == [] && UnsentNow(t) == Outgoing(n.stamp, script);
    assert Msgs(s.trace.sent) + [] == Msgs(s.trace.sent);
  }

  lemma IdleKeepsOne(s: State, t: State, i: nat)
    requires SingleNetlinker(s) && i < |s.netlinkers| == |t.netlinkers|
    requires Unsent(t.netlinkers[i]) == Unsent(s.netlinkers[i]) && t.trace == s.trace
    ensures SingleNetlinker(t)
  {
    hide Msgs, Unsent;
  }

  lemma OthersKeepOne(c: Config, s: State, e: Event)
    requires SingleNetlinker(s) && Enabled(c, s, e)
    requires WorkerEvent(e) || (e != PollerStep && Exec(c, s, e).crash != Alive)
    ensures SingleNetlinker(Exec(c, s, e))
  {
    hide MessagePanics, Msgs, Outgoing, TagAll, Sends, Yields;
  }

  lemma ExecKeepsOne(c: Config, s: State, e: Event)
    requires c.netlinkers == 1 && Fits(c, s) && SingleNetlinker(s) && Enabled(c, s, e)
    ensures SingleNetlinker(Exec(c, s, e))
  {
    assert s.crash == Alive && NetlinkersFit(c, s) by { hide Exec, SingleNetlinker, Yields; }
    hide Fits, SingleNetlinker;
    if e == PollerStep {
      PollerKeepsOne(c, s);
    } else {
      hide Exec, Enabled;
      if WorkerEvent(e) || Exec(c, s, e).crash != Alive {
        OthersKeepOne(c, s, e);
      } else if e.Enqueue? {
        EnqueueMoves(c, s, e);
        SendKeepsOne(s, Exec(c, s, e), e.i);
      } else if e.Handoff? {
        HandoffMoves(c, s, e);
        SendKeepsOne(s, Exec(c, s, e), e.i);
      } else if e.Receive? {
        ReceivePicks(c, s, e);
        PickKeepsOne(s, Exec(c, s, e), e.i, e.script);
      } else if e.NetlinkerPanic? {
        PanicCrashes(c, s, e);
      } else {
        NetlinkerIdles(c, s, e);
        IdleKeepsOne(s, Exec(c, s, e), NetlinkerOf(e));
      }
    }
  }

  lemma {:induction false} RunsKeepOne(c: Config, run: seq<State>)
    requires c.netlinkers == 1 && IsRun(c, run)
    ensures SingleNetlinker(run[|run| - 1])
    decreases |run|
  {
    var n := |run| - 1;
    if n > 0 {
      hide *;
      RunPrefix(c, run);
      RunsKeepOne(c, run[..n]);
      RunsAreSafe(c, run[..n]);
      NextKeepsOne(c, run[n - 1], run[n]);
    }
  }

  lemma NextKeepsOne(c: Config, s: State, t: State)
    requires c.netlinkers == 1 && Fits(c, s) && SingleNetlinker(s) && Next(c, s, t)
    ensures SingleNetlinker(t)
  {
    hide Fits, SingleNetlinker, Enabled, Exec;
    var e :| Enabled(c, s, e) && t == Exec(c, s, e);
    ExecKeepsOne(c, s, e);
  }

  // ---- Both ----

  /** With one netlinker and one inetdiager, in every reachable state: what the inetdiager has worked on and holds, then
      what is in the channel, then what the netlinker has still to send, is what was picked, in that order. */
  lemma SingleOrder(c: Config, s: State)
    requires Reachable(c, s) && c.netlinkers == 1 && c.inetdiagers == 1
    ensures Works(s.workers) + Bufs(s.chans) + UnsentNow(s) == Msgs(s.trace.picked)
    ensures GoodKernel(c) ==>
      Works(s.workers) + Bufs(s.chans) + UnsentNow(s) + ReplySeq(c, s.loops, s.socket) == ExpectedSeq(c, s.requests)
  {
    MessagesKeepOrder(c, s);
    if GoodKernel(c) { PickedInKernelOrder(c, s); }
    hide Next, GoodKernel, Msgs, ReplySeq, ExpectedSeq, Works, Bufs, Unsent;
    var run: seq<State> :| IsRun(c, run) && run[|run| - 1] == s;
    RunsAreSingle(c, run);
    RunsKeepOne(c, run);
  }
}
