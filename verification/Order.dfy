/** The order of messages: the channel is first in, first out, and no thread changes the order of what it handles. */
module Order {
  import opened Netlinker
  import opened Pipeline
  import opened Safety
  import opened Conservation
  import opened Incarnations

  // ---- Histories ----

  function Msgs(ts: seq<Tagged>): seq<Msg> {
    if ts == [] then [] else Msgs(ts[..|ts| - 1]) + [ts[|ts| - 1].msg]
  }

  /** What this thread did, in order. */
  function By(ts: seq<Tagged>, thread: nat): seq<Msg> {
    if ts == [] then []
    else
      var n := |ts| - 1;
      By(ts[..n], thread) + (if ts[n].thread == thread then [ts[n].msg] else [])
  }

  /** What this netlinker of this poll did, in order. */
  function ByPoll(ts: seq<Tagged>, thread: nat, poll: nat): seq<Msg> {
    if ts == [] then []
    else
      var n := |ts| - 1;
      ByPoll(ts[..n], thread, poll) + (if ts[n].thread == thread && ts[n].msg.stamp == poll then [ts[n].msg] else [])
  }

  /** What lies in the channels, oldest first. */
  function Bufs(chans: seq<Channel>): seq<Msg> {
    if chans == [] then [] else Bufs(chans[..|chans| - 1]) + chans[|chans| - 1].buf
  }

  /** What an inetdiager has taken: the processed messages and the one it holds. */
  function InHand(w: WorkerThread): seq<Msg> {
    w.processed + (if w.phase.Holding? then [w.phase.msg] else [])
  }

  /** What a netlinker has picked and not yet sent. */
  function Unsent(n: NetlinkerThread): seq<Msg> {
    if n.phase.Acting? then Outgoing(n.stamp, n.phase.script) else []
  }

  function UnsentOf(s: State, i: nat, poll: nat): seq<Msg> {
    if i < |s.netlinkers| && s.netlinkers[i].stamp == poll then Unsent(s.netlinkers[i]) else []
  }

  lemma OneMore(ts: seq<Tagged>, x: Tagged)
    ensures Msgs(ts + [x]) == Msgs(ts) + [x.msg]
    ensures forall j: nat :: By(ts + [x], j) == By(ts, j) + (if x.thread == j then [x.msg] else [])
    ensures forall i: nat, k: nat ::
      ByPoll(ts + [x], i, k) == ByPoll(ts, i, k) + (if x.thread == i && x.msg.stamp == k then [x.msg] else [])
  {
    assert (ts + [x])[..|ts|] == ts;
  }

  lemma {:induction false} ManyMore(ts: seq<Tagged>, i: nat, msgs: seq<Msg>, poll: nat)
    requires forall k :: 0 <= k < |msgs| ==> msgs[k].stamp == poll
    ensures Msgs(ts + TagAll(i, msgs)) == Msgs(ts) + msgs
    ensures forall j: nat, k: nat ::
      ByPoll(ts + TagAll(i, msgs), j, k) == ByPoll(ts, j, k) + (if i == j && poll == k then msgs else [])
    decreases |msgs|
  {
    if msgs == [] {
      assert ts + TagAll(i, msgs) == ts;
    } else {
      var n := |msgs| - 1;
      var before, x := ts + TagAll(i, msgs[..n]), Tagged(i, msgs[n]);
      assert ts + TagAll(i, msgs) == before + [x] && msgs == msgs[..n] + [msgs[n]];
      ManyMore(ts, i, msgs[..n], poll);
      OneMore(before, x);
      hide Msgs, ByPoll, TagAll;
    }
  }

  lemma {:induction false} OutgoingStamped(stamp: nat, script: seq<Action>)
    ensures forall k :: 0 <= k < |Outgoing(stamp, script)| ==> Outgoing(stamp, script)[k].stamp == stamp
  {
    if script != [] { OutgoingStamped(stamp, script[1..]); }
  }

  lemma OutgoingStep(stamp: nat, script: seq<Action>)
    requires script != []
    ensures script[0].Send? ==> Outgoing(stamp, script) == [Msg(stamp, script[0].body)] + Outgoing(stamp, script[1..])
    ensures !script[0].Send? ==> Outgoing(stamp, script) == Outgoing(stamp, script[1..])
  {
  }

  lemma BufsLast(chans: seq<Channel>, ch: Channel)
    ensures Bufs(chans + [ch]) == Bufs(chans) + ch.buf
  {
    assert (chans + [ch])[..|chans|] == chans;
  }

  lemma {:induction false} BufsEmpty(chans: seq<Channel>)
    requires forall g :: 0 <= g < |chans| ==> chans[g].buf == []
    ensures Bufs(chans) == []
  {
    if chans != [] { BufsEmpty(chans[..|chans| - 1]); }
  }

  /** Only the newest channel changes its buffer. */
  lemma NewestChanges(chans: seq<Channel>, ch: Channel)
    requires chans != []
    ensures var g := |chans| - 1;
            && Bufs(chans) == Bufs(chans[..g]) + chans[g].buf
            && Bufs(chans[g := ch]) == Bufs(chans[..g]) + ch.buf
  {
    var g := |chans| - 1;
    assert chans[g := ch][..g] == chans[..g];
  }

  // ---- The laws ----

  /** First in, first out: the messages sent are those taken, in the same order, and then those in the channels. */
  predicate Fifo(s: State) {
    Msgs(s.trace.sent) == Msgs(s.trace.taken) + Bufs(s.chans)
  }

  /** Each inetdiager processes messages in the order in which it took them. */
  predicate WorkersInOrder(s: State) {
    && (forall j :: 0 <= j < |s.workers| ==> InHand(s.workers[j]) == By(s.trace.taken, j))
    && (forall x :: x in s.trace.taken ==> x.thread < |s.workers|)
  }

  /** Each netlinker sends messages in the order in which it picked them, in every poll. */
  ghost predicate NetlinkersInOrder(s: State) {
    forall i: nat, k: nat :: ByPoll(s.trace.picked, i, k) == ByPoll(s.trace.sent, i, k) + UnsentOf(s, i, k)
  }

  ghost predicate Ordered(s: State) {
    Fifo(s) && WorkersInOrder(s) && NetlinkersInOrder(s)
  }

  lemma InitOrdered()
    ensures Ordered(INIT)
  {
  }

  // ---- What each step changes ----

  lemma EnqueueMoves(c: Config, s: State, e: Event)
    requires Enabled(c, s, e) && e.Enqueue? && Exec(c, s, e).crash == Alive
    ensures Facing(s, e.i) && Head(s, e.i).Send?
    ensures var t, n := Exec(c, s, e), s.netlinkers[e.i];
            var m, ch := Msg(n.stamp, Head(s, e.i).body), s.chans[n.ch];
            && t.netlinkers == s.netlinkers[e.i := n.(phase := Acting(n.phase.script[1..]))]
            && t.chans == s.chans[n.ch := Channel(ch.buf + [m], ch.closed)]
            && t.workers == s.workers && t.trace == Sent(s.trace, e.i, m)
  {
  }

  lemma HandoffMoves(c: Config, s: State, e: Event)
    requires Enabled(c, s, e) && e.Handoff?
    ensures Facing(s, e.i) && Head(s, e.i).Send? && HasWorker(s, e.j) && s.workers[e.j].phase == Idle
    ensures s.chans[s.workers[e.j].ch] == Channel([], false)
    ensures var t, n, w := Exec(c, s, e), s.netlinkers[e.i], s.workers[e.j];
            var m := Msg(n.stamp, Head(s, e.i).body);
            && t.netlinkers == s.netlinkers[e.i := n.(phase := Acting(n.phase.script[1..]))]
            && t.workers == s.workers[e.j := w.(phase := Holding(m))]
            && t.chans == s.chans && t.trace == Taken(Sent(s.trace, e.i, m), e.j, m)
  {
  }

  lemma DequeueTakes(c: Config, s: State, e: Event)
    requires Enabled(c, s, e) && e.Dequeue?
    ensures HasWorker(s, e.j) && s.workers[e.j].phase == Idle && s.chans[s.workers[e.j].ch].buf != []
    ensures var t, w := Exec(c, s, e), s.workers[e.j];
            var ch := s.chans[w.ch];
            && t.workers == s.workers[e.j := w.(phase := Holding(ch.buf[0]))]
            && t.chans == s.chans[w.ch := Channel(ch.buf[1..], ch.closed)]
            && t.netlinkers == s.netlinkers && t.trace == Taken(s.trace, e.j, ch.buf[0])
  {
  }

  lemma ReceivePicks(c: Config, s: State, e: Event)
    requires Enabled(c, s, e) && e.Receive?
    ensures Has(s, e.i) && s.netlinkers[e.i].phase == Receiving
    ensures var t, n := Exec(c, s, e), s.netlinkers[e.i];
            && t.netlinkers == s.netlinkers[e.i := n.(phase := Acting(e.script))]
            && t.chans == s.chans && t.workers == s.workers
            && t.trace == s.trace.(picked := s.trace.picked + TagAll(e.i, Outgoing(n.stamp, e.script)))
  {
    hide Yields, Outgoing, TagAll, Sends;
  }

  /** The steps of a netlinker that handle no message. */
  lemma NetlinkerIdles(c: Config, s: State, e: Event)
    requires Enabled(c, s, e) && (e.TakeDone? || e.Timeout? || e.NextPacket?)
    ensures var t, i := Exec(c, s, e), NetlinkerOf(e);
            && t.chans == s.chans && t.workers == s.workers && t.trace == s.trace
            && i < |s.netlinkers| && |t.netlinkers| == |s.netlinkers|
            && t.netlinkers == s.netlinkers[i := t.netlinkers[i]]
            && t.netlinkers[i].stamp == s.netlinkers[i].stamp && Unsent(t.netlinkers[i]) == Unsent(s.netlinkers[i])
  {
    if e.TakeDone? { OutgoingStep(s.netlinkers[e.i].stamp, s.netlinkers[e.i].phase.script); }
    hide Outgoing;
  }

  /** The steps of an inetdiager that take no message. */
  lemma WorkerIdles(c: Config, s: State, e: Event)
    requires Enabled(c, s, e) && (e.Process? || e.Leave?) && Exec(c, s, e).crash == Alive
    ensures var t, j := Exec(c, s, e), WorkerOf(e);
            && t.chans == s.chans && t.netlinkers == s.netlinkers && t.trace == s.trace
            && j < |s.workers| && |t.workers| == |s.workers| && t.workers == s.workers[j := t.workers[j]]
            && InHand(t.workers[j]) == InHand(s.workers[j])
  {
    hide MessagePanics;
  }

  // ---- First in, first out ----

  /** Where a worker takes a message, every older channel has been emptied. */
  lemma OlderAreEmpty(c: Config, s: State, j: nat)
    requires Fits(c, s) && Incarnated(c, s) && s.crash == Alive && HasWorker(s, j) && s.workers[j].phase != Left
    ensures s.workers[j].ch == Newest(s) && s.chans != [] && Bufs(s.chans[..|s.chans| - 1]) == []
  {
    assert s.workers[j].ch == Newest(s);
    assert c.inetdiagers > 0;
    var older := s.chans[..|s.chans| - 1];
    forall g | 0 <= g < |older| ensures older[g].buf == [] {
      assert Served(s, g);
      OldWorkersDrain(c, s, g);
    }
    hide Fits, Incarnated;
    BufsEmpty(older);
  }

  lemma OldWorkersDrain(c: Config, s: State, g: nat)
    requires Fits(c, s) && s.crash == Alive && g < |s.chans| - 1 && Served(s, g)
    ensures s.chans[g].buf == []
  {
    var j :| 0 <= j < |s.workers| && s.workers[j].ch == g;
    assert s.workers[j].phase == Left;
  }

  lemma SenderIsNewest(c: Config, s: State, i: nat)
    requires Fits(c, s) && s.crash == Alive && Facing(s, i)
    ensures s.chans != [] && s.netlinkers[i].ch == |s.chans| - 1
  {
    assert s.netlinkers[i].phase != Gone;
    hide WorkersFit, CountsFit, ChannelsServed;
  }

  lemma EnqueueFifo(c: Config, s: State, e: Event)
    requires Fits(c, s) && Fifo(s) && Enabled(c, s, e) && e.Enqueue? && Exec(c, s, e).crash == Alive
    ensures Fifo(Exec(c, s, e))
  {
    EnqueueMoves(c, s, e);
    assert s.crash == Alive;
    hide Enabled, Exec, Fits, Bufs, Msgs;
    SenderIsNewest(c, s, e.i);
    var n, g := s.netlinkers[e.i], |s.chans| - 1;
    var m := Msg(n.stamp, Head(s, e.i).body);
    NewestChanges(s.chans, Channel(s.chans[g].buf + [m], s.chans[g].closed));
    OneMore(s.trace.sent, Tagged(e.i, m));
    Longer(Msgs(s.trace.taken), Bufs(s.chans[..g]), s.chans[g].buf, m);
  }

  lemma Longer(t: seq<Msg>, b: seq<Msg>, q: seq<Msg>, m: Msg)
    ensures (t + (b + q)) + [m] == t + (b + (q + [m]))
  {
  }

  lemma HandoffFifo(c: Config, s: State, e: Event)
    requires Fits(c, s) && Incarnated(c, s) && Fifo(s) && Enabled(c, s, e) && e.Handoff?
    ensures Fifo(Exec(c, s, e))
  {
    HandoffMoves(c, s, e);
    assert s.crash == Alive;
    hide Enabled, Exec, Fits, Incarnated, Fifo, Bufs, Msgs;
    OlderAreEmpty(c, s, e.j);
    HandedOver(s, Exec(c, s, e), e.i, e.j, Msg(s.netlinkers[e.i].stamp, Head(s, e.i).body));
  }

  lemma HandedOver(s: State, t: State, i: nat, j: nat, m: Msg)
    requires Fifo(s) && s.chans != [] && Bufs(s.chans[..|s.chans| - 1]) == [] && s.chans[|s.chans| - 1].buf == []
    requires t.chans == s.chans && t.trace == Taken(Sent(s.trace, i, m), j, m)
    ensures Fifo(t)
  {
    hide Bufs, Msgs;
    NewestChanges(s.chans, s.chans[|s.chans| - 1]);
    OneMore(s.trace.sent, Tagged(i, m));
    OneMore(s.trace.taken, Tagged(j, m));
    assert Bufs(s.chans) == [];
  }

  lemma DequeueFifo(c: Config, s: State, e: Event)
    requires Fits(c, s) && Incarnated(c, s) && Fifo(s) && Enabled(c, s, e) && e.Dequeue?
    ensures Fifo(Exec(c, s, e))
  {
    DequeueTakes(c, s, e);
    assert s.crash == Alive;
    hide Enabled, Exec, Fits, Incarnated, Fifo, Bufs, Msgs;
    OlderAreEmpty(c, s, e.j);
    FrontTaken(s, Exec(c, s, e), e.j);
  }

  lemma FrontTaken(s: State, t: State, j: nat)
    requires Fifo(s) && s.chans != [] && Bufs(s.chans[..|s.chans| - 1]) == [] && s.chans[|s.chans| - 1].buf != []
    requires var g := |s.chans| - 1;
             var b := s.chans[g].buf;
             && t.chans == s.chans[g := Channel(b[1..], s.chans[g].closed)] && t.trace == Taken(s.trace, j, b[0])
    ensures Fifo(t)
  {
    hide Bufs, Msgs;
    var g := |s.chans| - 1;
    var b := s.chans[g].buf;
    NewestChanges(s.chans, Channel(b[1..], s.chans[g].closed));
    OneMore(s.trace.taken, Tagged(j, b[0]));
    FrontMoves(Msgs(s.trace.taken), b);
  }

  lemma FrontMoves(t: seq<Msg>, b: seq<Msg>)
    requires b != []
    ensures t + ([] + b) == (t + [b[0]]) + ([] + b[1..])
  {
  }

  lemma PollerChans(c: Config, s: State)
    requires PollerReady(s)
    ensures var t := PollerNext(c, s);
            && t.trace == s.trace
            && (t.chans == s.chans || t.chans == s.chans + [Channel([], false)]
                || (s.chans != [] && t.chans == s.chans[|s.chans| - 1 := Channel(s.chans[|s.chans| - 1].buf, true)]))
  {
  }

  lemma PollerFifo(c: Config, s: State)
    requires Fifo(s) && PollerReady(s)
    ensures Fifo(PollerNext(c, s))
  {
    PollerChans(c, s);
    hide PollerNext, PollerReady, Bufs, Msgs;
    BufsLast(s.chans, Channel([], false));
    if s.chans != [] { NewestChanges(s.chans, Channel(s.chans[|s.chans| - 1].buf, true)); }
  }

  // ---- Workers ----

  lemma TakeInOrder(s: State, t: State, j: nat, m: Msg)
    requires WorkersInOrder(s) && j < |s.workers| && s.workers[j].phase == Idle
    requires t.workers == s.workers[j := s.workers[j].(phase := Holding(m))]
    requires t.trace.taken == s.trace.taken + [Tagged(j, m)]
    ensures WorkersInOrder(t)
  {
    OneMore(s.trace.taken, Tagged(j, m));
    hide By;
    forall l | 0 <= l < |t.workers| ensures InHand(t.workers[l]) == By(t.trace.taken, l) {
      assert InHand(s.workers[l]) == By(s.trace.taken, l);
    }
  }

  lemma SameInOrder(s: State, t: State, j: nat)
    requires WorkersInOrder(s) && j < |s.workers| == |t.workers| && t.workers == s.workers[j := t.workers[j]]
    requires InHand(t.workers[j]) == InHand(s.workers[j]) && t.trace.taken == s.trace.taken
    ensures WorkersInOrder(t)
  {
    hide By, InHand;
  }

  lemma {:induction false} TookNothing(ts: seq<Tagged>, j: nat)
    requires forall x :: x in ts ==> x.thread < j
    ensures By(ts, j) == []
  {
    if ts != [] {
      assert ts[|ts| - 1] in ts;
      TookNothing(ts[..|ts| - 1], j);
    }
  }

  lemma PollerKeepsInOrder(c: Config, s: State)
    requires WorkersInOrder(s) && PollerReady(s)
    ensures WorkersInOrder(PollerNext(c, s))
  {
    var t := PollerNext(c, s);
    assert t.trace == s.trace;
    assert t.workers == s.workers || t.workers == s.workers + [WorkerThread(Newest(s), Idle, [])];
    hide PollerNext, By;
    TookNothing(s.trace.taken, |s.workers|);
  }

  // ---- Netlinkers ----

  lemma SendInOrder(s: State, t: State, i: nat)
    requires NetlinkersInOrder(s) && Facing(s, i) && Head(s, i).Send?
    requires var n := s.netlinkers[i];
             && t.netlinkers == s.netlinkers[i := n.(phase := Acting(n.phase.script[1..]))]
             && t.trace.picked == s.trace.picked
             && t.trace.sent == s.trace.sent + [Tagged(i, Msg(n.stamp, Head(s, i).body))]
    ensures NetlinkersInOrder(t)
  {
    var n := s.netlinkers[i];
    OneMore(s.trace.sent, Tagged(i, Msg(n.stamp, Head(s, i).body)));
    OutgoingStep(n.stamp, n.phase.script);
    hide ByPoll, Outgoing;
    forall l: nat, k: nat ensures ByPoll(t.trace.picked, l, k) == ByPoll(t.trace.sent, l, k) + UnsentOf(t, l, k) {
      assert ByPoll(s.trace.picked, l, k) == ByPoll(s.trace.sent, l, k) + UnsentOf(s, l, k);
    }
  }

  lemma IdleInOrder(s: State, t: State, i: nat)
    requires NetlinkersInOrder(s) && i < |s.netlinkers| == |t.netlinkers|
    requires t.netlinkers == s.netlinkers[i := t.netlinkers[i]] && t.netlinkers[i].stamp == s.netlinkers[i].stamp
    requires Unsent(t.netlinkers[i]) == Unsent(s.netlinkers[i]) && t.trace == s.trace
    ensures NetlinkersInOrder(t)
  {
    hide ByPoll, Unsent;
    forall l: nat, k: nat ensures ByPoll(t.trace.picked, l, k) == ByPoll(t.trace.sent, l, k) + UnsentOf(t, l, k) {
      assert ByPoll(s.trace.picked, l, k) == ByPoll(s.trace.sent, l, k) + UnsentOf(s, l, k);
    }
  }

  lemma PickInOrder(s: State, t: State, i: nat, script: seq<Action>)
    requires NetlinkersInOrder(s) && i < |s.netlinkers| && s.netlinkers[i].phase == Receiving
    requires var n := s.netlinkers[i];
             && t.netlinkers == s.netlinkers[i := n.(phase := Acting(script))]
             && t.trace == s.trace.(picked := s.trace.picked + TagAll(i, Outgoing(n.stamp, script)))
    ensures NetlinkersInOrder(t)
  {
    var n := s.netlinkers[i];
    OutgoingStamped(n.stamp, script);
    ManyMore(s.trace.picked, i, Outgoing(n.stamp, script), n.stamp);
    hide ByPoll, Outgoing, TagAll, Msgs, UnsentOf;
    forall l: nat, k: nat ensures ByPoll(t.trace.picked, l, k) == ByPoll(t.trace.sent, l, k) + UnsentOf(t, l, k) {
      var more := if i == l && n.stamp == k then Outgoing(n.stamp, script) else [];
      PickedUnsent(s, t, i, script, l, k);
      Behind(ByPoll(s.trace.picked, l, k), ByPoll(s.trace.sent, l, k), UnsentOf(s, l, k), more);
    }
  }

  lemma Behind(p: seq<Msg>, q: seq<Msg>, u: seq<Msg>, more: seq<Msg>)
    requires p == q + u
    ensures p + more == q + (u + more)
  {
  }

  lemma PickedUnsent(s: State, t: State, i: nat, script: seq<Action>, l: nat, k: nat)
    requires i < |s.netlinkers| && s.netlinkers[i].phase == Receiving
    requires t.netlinkers == s.netlinkers[i := s.netlinkers[i].(phase := Acting(script))]
    ensures var more := if i == l && s.netlinkers[i].stamp == k then Outgoing(s.netlinkers[i].stamp, script) else [];
            (more != [] ==> UnsentOf(s, l, k) == []) && UnsentOf(t, l, k) == UnsentOf(s, l, k) + more
  {
    hide Outgoing;
  }

  lemma SameThreads(s: State, t: State)
    requires NetlinkersInOrder(s) && t.netlinkers == s.netlinkers && t.trace.picked == s.trace.picked
    requires t.trace.sent == s.trace.sent
    ensures NetlinkersInOrder(t)
  {
    hide ByPoll, Unsent;
    forall l: nat, k: nat ensures ByPoll(t.trace.picked, l, k) == ByPoll(t.trace.sent, l, k) + UnsentOf(t, l, k) {
      assert ByPoll(s.trace.picked, l, k) == ByPoll(s.trace.sent, l, k) + UnsentOf(s, l, k);
    }
  }

  lemma PollerNetlinkersInOrder(c: Config, s: State)
    requires NetlinkersInOrder(s) && NetlinkersFit(c, s) && PollerReady(s)
    ensures NetlinkersInOrder(PollerNext(c, s))
  {
    var t := PollerNext(c, s);
    assert t.trace == s.trace;
    assert s.pc == SendRequest ==> AllGone(s.netlinkers);
    assert t.netlinkers == s.netlinkers || (s.pc == SendRequest && t.netlinkers == [])
           || t.netlinkers == s.netlinkers + [NetlinkerThread(Newest(s), s.loops, Receiving)];
    hide PollerNext, ByPoll, NetlinkersFit;
    forall l: nat, k: nat ensures ByPoll(t.trace.picked, l, k) == ByPoll(t.trace.sent, l, k) + UnsentOf(t, l, k) {
      assert ByPoll(s.trace.picked, l, k) == ByPoll(s.trace.sent, l, k) + UnsentOf(s, l, k);
    }
  }

  // ---- Every step, every run ----

  lemma EnqueueOrdered(c: Config, s: State, e: Event)
    requires Fits(c, s) && Ordered(s) && Enabled(c, s, e) && e.Enqueue? && Exec(c, s, e).crash == Alive
    ensures Ordered(Exec(c, s, e))
  {
    hide Fits, Enabled, Exec, Fifo, NetlinkersInOrder, By;
    EnqueueFifo(c, s, e);
    EnqueueMoves(c, s, e);
    SendInOrder(s, Exec(c, s, e), e.i);
  }

  lemma HandoffOrdered(c: Config, s: State, e: Event)
    requires Fits(c, s) && Incarnated(c, s) && Ordered(s) && Enabled(c, s, e) && e.Handoff?
    ensures Ordered(Exec(c, s, e))
  {
    hide Fits, Incarnated, Enabled, Exec, Fifo, NetlinkersInOrder, WorkersInOrder;
    HandoffFifo(c, s, e);
    HandoffMoves(c, s, e);
    SendInOrder(s, Exec(c, s, e), e.i);
    TakeInOrder(s, Exec(c, s, e), e.j, Msg(s.netlinkers[e.i].stamp, Head(s, e.i).body));
  }

  lemma DequeueOrdered(c: Config, s: State, e: Event)
    requires Fits(c, s) && Incarnated(c, s) && Ordered(s) && Enabled(c, s, e) && e.Dequeue?
    ensures Ordered(Exec(c, s, e))
  {
    hide Fits, Incarnated, Enabled, Exec, Fifo, NetlinkersInOrder, WorkersInOrder;
    DequeueFifo(c, s, e);
    DequeueTakes(c, s, e);
    SameThreads(s, Exec(c, s, e));
    TakeInOrder(s, Exec(c, s, e), e.j, s.chans[s.workers[e.j].ch].buf[0]);
  }

  lemma ReceiveOrdered(c: Config, s: State, e: Event)
    requires Ordered(s) && Enabled(c, s, e) && e.Receive?
    ensures Ordered(Exec(c, s, e))
  {
    hide Enabled, Exec, NetlinkersInOrder, Msgs, Bufs, By;
    ReceivePicks(c, s, e);
    PickInOrder(s, Exec(c, s, e), e.i, e.script);
  }

  lemma IdleOrdered(c: Config, s: State, e: Event)
    requires Ordered(s) && Enabled(c, s, e) && (e.TakeDone? || e.Timeout? || e.NextPacket?)
    ensures Ordered(Exec(c, s, e))
  {
    hide Enabled, Exec, NetlinkersInOrder, Msgs, Bufs, By;
    NetlinkerIdles(c, s, e);
    IdleInOrder(s, Exec(c, s, e), NetlinkerOf(e));
  }

  lemma WorkOrdered(c: Config, s: State, e: Event)
    requires Ordered(s) && Enabled(c, s, e) && (e.Process? || e.Leave?) && Exec(c, s, e).crash == Alive
    ensures Ordered(Exec(c, s, e))
  {
    hide Enabled, Exec, NetlinkersInOrder, WorkersInOrder, Msgs, Bufs;
    WorkerIdles(c, s, e);
    SameThreads(s, Exec(c, s, e));
    SameInOrder(s, Exec(c, s, e), WorkerOf(e));
  }

  lemma PollerOrdered(c: Config, s: State)
    requires Fits(c, s) && s.crash == Alive && Ordered(s) && PollerReady(s)
    ensures Ordered(PollerNext(c, s))
  {
    assert NetlinkersFit(c, s);
    hide Fits, Fifo, WorkersInOrder, NetlinkersInOrder, PollerNext;
    PollerFifo(c, s);
    PollerKeepsInOrder(c, s);
    PollerNetlinkersInOrder(c, s);
  }

  /** A crash leaves everything else where it is. */
  lemma CrashOrdered(c: Config, s: State, e: Event)
    requires Ordered(s) && Enabled(c, s, e) && e != PollerStep && Exec(c, s, e).crash != Alive
    ensures Ordered(Exec(c, s, e))
  {
    var t := Exec(c, s, e);
    assert t == s.(crash := t.crash) by { hide MessagePanics, Yields, Ordered, Sends, Outgoing, TagAll; }
    hide Enabled, Exec, Msgs, Bufs, By, ByPoll, Unsent;
    SameThreads(s, t);
  }

  lemma ExecKeepsOrder(c: Config, s: State, e: Event)
    requires Fits(c, s) && Incarnated(c, s) && Ordered(s) && Enabled(c, s, e)
    ensures Ordered(Exec(c, s, e))
  {
    hide Fits, Incarnated, Ordered;
    if e == PollerStep {
      PollerOrdered(c, s);
    } else {
      hide Exec;
      if Exec(c, s, e).crash != Alive {
        CrashOrdered(c, s, e);
      } else if e.Enqueue? {
        EnqueueOrdered(c, s, e);
      } else if e.Handoff? {
        HandoffOrdered(c, s, e);
      } else if e.Dequeue? {
        DequeueOrdered(c, s, e);
      } else if e.Receive? {
        ReceiveOrdered(c, s, e);
      } else if e.TakeDone? || e.Timeout? || e.NextPacket? {
        IdleOrdered(c, s, e);
      } else if e.Process? || e.Leave? {
        WorkOrdered(c, s, e);
      } else {
        PanicCrashes(c, s, e);
      }
    }
  }

  lemma PanicCrashes(c: Config, s: State, e: Event)
    requires Enabled(c, s, e) && e.NetlinkerPanic?
    ensures Exec(c, s, e).crash != Alive
  {
  }

  lemma {:induction false} RunsAreOrdered(c: Config, run: seq<State>)
    requires IsRun(c, run)
    ensures Ordered(run[|run| - 1])
    decreases |run|
  {
    var n := |run| - 1;
    if n == 0 {
      InitOrdered();
    } else {
      hide *;
      RunPrefix(c, run);
      RunsAreOrdered(c, run[..n]);
      RunsAreSafe(c, run[..n]);
      RunsAreIncarnated(c, run[..n]);
      NextKeepsOrder(c, run[n - 1], run[n]);
    }
  }

  lemma NextKeepsOrder(c: Config, s: State, t: State)
    requires Fits(c, s) && Incarnated(c, s) && Ordered(s) && Next(c, s, t)
    ensures Ordered(t)
  {
    hide Fits, Incarnated, Ordered, Enabled, Exec;
    var e :| Enabled(c, s, e) && t == Exec(c, s, e);
    ExecKeepsOrder(c, s, e);
  }

  /** In every reachable state, for any kernel and any numbers of threads: each netlinker sends what it picks in order,
      the channels hand on what is sent first in, first out, and each inetdiager works in the order of taking. */
  lemma MessagesKeepOrder(c: Config, s: State)
    requires Reachable(c, s)
    ensures forall i: nat, k: nat :: ByPoll(s.trace.picked, i, k) == ByPoll(s.trace.sent, i, k) + UnsentOf(s, i, k)
    ensures Msgs(s.trace.sent) == Msgs(s.trace.taken) + Bufs(s.chans)
    ensures forall j :: 0 <= j < |s.workers| ==> By(s.trace.taken, j) == InHand(s.workers[j])
  {
    hide *;
    var path := PathTo(c, s);
    RunsAreOrdered(c, path);
    OrderedIs(s);
  }

  lemma OrderedIs(s: State)
    requires Ordered(s)
    ensures forall i: nat, k: nat :: ByPoll(s.trace.picked, i, k) == ByPoll(s.trace.sent, i, k) + UnsentOf(s, i, k)
    ensures Msgs(s.trace.sent) == Msgs(s.trace.taken) + Bufs(s.chans)
    ensures forall j :: 0 <= j < |s.workers| ==> By(s.trace.taken, j) == InHand(s.workers[j])
  {
    hide Msgs, Bufs, By, ByPoll, InHand, UnsentOf;
  }
}
