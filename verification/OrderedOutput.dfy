/** The records of a kept single inetdiager, in order, as a function of the kernel's dumps. */
module OrderedOutput {
  import opened Misc
  import opened Bytes
  import opened Sampling
  import opened Netlinker
  import opened Framing
  import I = Inetdiager
  import opened Pipeline
  import opened Conservation
  import opened Incarnations
  import opened Delivery
  import opened Order
  import opened KernelOrder
  import opened Lag
  import opened Workers
  import opened Dumps

  /** A socket and the poll whose dump it is in. */
  datatype Polled = Polled(poll: nat, socket: I.KernelMessage)

  predicate AllWell(xs: seq<Polled>) {
    forall i :: 0 <= i < |xs| ==> I.WellFormedMessage(xs[i].socket)
  }

  /** The sampled sockets of a dump, in its order. */
  function DumpSockets(poll: nat, items: seq<Item>, count: nat, m: int): (xs: seq<Polled>)
    requires m != 0 && WellFormedItems(items)
    ensures AllWell(xs)
  {
    if items == [] then []
    else
      assert WellFormedItem(items[0]);
      (if Selected(count, m) then [Polled(poll, items[0].msg)] else []) + DumpSockets(poll, items[1..], count + 1, m)
  }

  function ReplySockets(c: Config, poll: nat, ds: seq<Dump>): (xs: seq<Polled>)
    requires c.samplingModulus != 0 && forall i :: 0 <= i < |ds| ==> WellFormedDump(c, ds[i])
    ensures AllWell(xs)
  {
    if ds == [] then []
    else
      assert WellFormedDump(c, ds[0]);
      DumpSockets(poll, ds[0].items, 0, c.samplingModulus) + ReplySockets(c, poll, ds[1..])
  }

  /** The sampled sockets of the first n polls, in the kernel's order. */
  ghost function AllSockets(c: Config, dumps: nat -> seq<Dump>, n: nat): (xs: seq<Polled>)
    requires c.samplingModulus != 0 && Answers(c, dumps) && (n > 0 ==> MaxLoopsOrForEver(n - 1, c.maxLoops))
    ensures AllWell(xs)
  {
    if n == 0 then [] else AllSockets(c, dumps, n - 1) + ReplySockets(c, n - 1, dumps(n - 1))
  }

  function MsgsOf(xs: seq<Polled>): (ms: seq<Msg>)
    requires AllWell(xs)
    ensures |ms| == |xs|
    ensures forall i :: 0 <= i < |xs| ==>
      I.WellFormedMessage(xs[i].socket) && ms[i] == Msg(xs[i].poll, I.EncodeMessage(xs[i].socket))
  {
    seq(|xs|, i requires 0 <= i < |xs| => Msg(xs[i].poll, I.EncodeMessage(xs[i].socket)))
  }

  function SocketsOf(xs: seq<Polled>): (ks: seq<I.KernelMessage>)
    requires AllWell(xs)
    ensures |ks| == |xs| && I.AllMessages(ks)
    ensures forall i :: 0 <= i < |xs| ==> ks[i] == xs[i].socket
  {
    seq(|xs|, i requires 0 <= i < |xs| => xs[i].socket)
  }

  // ---- The messages of the dumps, in order ----

  lemma MsgsOfConcat(xs: seq<Polled>, ys: seq<Polled>)
    requires AllWell(xs) && AllWell(ys)
    ensures AllWell(xs + ys) && MsgsOf(xs + ys) == MsgsOf(xs) + MsgsOf(ys)
  {
    hide I.WellFormedMessage, I.EncodeMessage;
  }

  lemma OutgoingFirst(stamp: nat, sent: bool, body: seq<byte>, rest: seq<Action>)
    ensures Outgoing(stamp, (if sent then [Send(body)] else []) + rest)
         == (if sent then [Msg(stamp, body)] else []) + Outgoing(stamp, rest)
  {
    assert ([Send(body)] + rest)[1..] == rest && [] + rest == rest;
  }

  lemma SocketsStep(poll: nat, items: seq<Item>, count: nat, m: int)
    requires m != 0 && WellFormedItems(items) && items != []
    ensures WellFormedItem(items[0]) && WellFormedItems(items[1..])
    ensures MsgsOf(DumpSockets(poll, items, count, m))
         == (if Selected(count, m) then [Msg(poll, MessageOf(items[0]).body)] else [])
            + MsgsOf(DumpSockets(poll, items[1..], count + 1, m))
  {
    hide I.WellFormedMessage, I.EncodeMessage, Selected;
    var x := Polled(poll, items[0].msg);
    assert WellFormedItem(items[0]);
    assert MsgsOf([x]) == [Msg(poll, MessageOf(items[0]).body)];
    MsgsOfConcat(if Selected(count, m) then [x] else [], DumpSockets(poll, items[1..], count + 1, m));
  }

  lemma {:induction false} OutgoingSends(poll: nat, items: seq<Item>, count: nat, m: int, last: seq<Action>)
    requires m != 0 && WellFormedItems(items) && (last == [] || last == [Done])
    ensures Outgoing(poll, Sampled(MessagesOf(items), count, m) + last) == MsgsOf(DumpSockets(poll, items, count, m))
    decreases |items|
  {
    if items == [] {
      OutgoingNothing(poll, last);
    } else {
      hide *;
      SocketsStep(poll, items, count, m);
      SampledStepItems(items, count, m);
      OutgoingSends(poll, items[1..], count + 1, m, last);
      var first := if Selected(count, m) then [Send(MessageOf(items[0]).body)] else [];
      var later := Sampled(MessagesOf(items[1..]), count + 1, m);
      assert (first + later) + last == first + (later + last);
      OutgoingFirst(poll, Selected(count, m), MessageOf(items[0]).body, later + last);
    }
  }

  lemma OutgoingNothing(poll: nat, last: seq<Action>)
    requires last == [] || last == [Done]
    ensures Outgoing(poll, [] + last) == []
  {
    assert [] + last == last && [Done][1..] == [];
  }

  lemma {:induction false} ReplyInOrder(c: Config, poll: nat, ds: seq<Dump>, rs: seq<Reception>)
    requires c.samplingModulus != 0 && |rs| == |ds|
    requires forall i :: 0 <= i < |ds| ==> WellFormedDump(c, ds[i]) && rs[i] == Datagram(EncodePacket(PacketOf(ds[i])))
    ensures ReplySeq(c, poll, rs) == MsgsOf(ReplySockets(c, poll, ds))
    decreases |ds|
  {
    hide Acts, Outgoing, EncodePacket, WellFormedPacket, PacketOf, WellFormedItems, MessagesOf, Sampled, DumpSockets,
        I.WellFormedMessage, I.EncodeMessage;
    if ds != [] {
      assert WellFormedDump(c, ds[0]);
      ReplyInOrder(c, poll, ds[1..], rs[1..]);
      DumpDetermined(c, ds[0]);
      OutgoingSends(poll, ds[0].items, 0, c.samplingModulus, if ds[0].dones == [] then [] else [Done]);
      MsgsOfConcat(DumpSockets(poll, ds[0].items, 0, c.samplingModulus), ReplySockets(c, poll, ds[1..]));
    }
  }

  lemma {:induction false} ExpectedInOrder(c: Config, dumps: nat -> seq<Dump>, n: nat)
    requires c.samplingModulus != 0 && Answers(c, dumps) && (n > 0 ==> MaxLoopsOrForEver(n - 1, c.maxLoops))
    ensures ExpectedSeq(c, n) == MsgsOf(AllSockets(c, dumps, n))
  {
    hide ReplySeq, ReplySockets, WellFormedDump, I.WellFormedMessage, I.EncodeMessage;
    if n > 0 {
      ExpectedInOrder(c, dumps, n - 1);
      assert WellFormedReply(c, dumps(n - 1)) && Carrying(c, dumps(n - 1), c.kernel(n - 1));
      ReplyInOrder(c, n - 1, dumps(n - 1), c.kernel(n - 1));
      MsgsOfConcat(AllSockets(c, dumps, n - 1), ReplySockets(c, n - 1, dumps(n - 1)));
    }
  }

  // ---- The records in order ----

  /** Of these sockets worked on in this order, those that the report modulus selects become records, each built from
      all sockets up to it and with its poll's time. */
  function OrderedRecords(hostname: string, modulus: int, start: nat -> nat, xs: seq<Polled>): seq<I.XtcpRecord>
    requires modulus != 0 && AllWell(xs)
  {
    if xs == [] then []
    else
      var n := |xs| - 1;
      OrderedRecords(hostname, modulus, start, xs[..n])
      + if Selected(n, modulus) then [I.RecordAfter(hostname, start(xs[n].poll), SocketsOf(xs[..n]), xs[n].socket)]
        else []
  }

  lemma {:induction false} RecordsInOrder(hostname: string, modulus: int, start: nat -> nat, xs: seq<Polled>,
                                          inputs: seq<I.Input>)
    requires modulus != 0 && AllWell(xs) && |inputs| == |xs|
    requires forall i :: 0 <= i < |xs| ==> inputs[i].epochTime == start(xs[i].poll)
    ensures I.Records(hostname, modulus, inputs, SocketsOf(xs)) == OrderedRecords(hostname, modulus, start, xs)
    decreases |xs|
  {
    hide I.RecordAfter, I.WellFormedMessage, I.AllMessages, Selected;
    if xs != [] {
      var n := |xs| - 1;
      assert SocketsOf(xs)[..n] == SocketsOf(xs[..n]);
      RecordsInOrder(hostname, modulus, start, xs[..n], inputs[..n]);
    }
  }

  /** An inetdiager that has processed these sockets has sent exactly their records, in order. */
  lemma LifeInOrder(hostname: string, modulus: int, start: nat -> nat, w: WorkerThread, inputs: seq<I.Input>,
                    xs: seq<Polled>)
    requires modulus != 0 && LifeOf(start, w, inputs) && AllWell(xs) && w.processed == MsgsOf(xs)
    ensures var r := I.Life(hostname, modulus, inputs);
            r.Alive? && r.sent == OrderedRecords(hostname, modulus, start, xs)
  {
    hide I.WellFormedMessage, I.EncodeMessage, I.Life, I.Records, OrderedRecords;
    assert I.Carries(inputs, SocketsOf(xs));
    I.LifeSends(hostname, modulus, inputs, SocketsOf(xs));
    RecordsInOrder(hostname, modulus, start, xs, inputs);
  }

  // ---- A kept single inetdiager ----

  lemma OnlyWorker(c: Config, s: State)
    requires Reachable(c, s) && c.inetdiagers == 1 && !c.shutdownWorkers && s.workers != []
    ensures |s.workers| == 1 && Works(s.workers) == InHand(s.workers[0])
  {
    StartedOnce(c, s);
    hide Reachable, InHand;
    assert s.workers[..0] == [];
  }

  /** The records of a kept single inetdiager behind a single netlinker, at any moment and for any report modulus:
      those of a front part of the kernel's sampled sockets in the kernel's order. Nothing else about the run
      matters. */
  lemma SingleSends(c: Config, hostname: string, start: nat -> nat, dumps: nat -> seq<Dump>, s: State,
                    inputs: seq<I.Input>)
    requires Answers(c, dumps) && c.samplingModulus != 0 && c.reportModulus != 0
    requires Reachable(c, s) && s.crash == Alive && s.workers != [] && LifeOf(start, s.workers[0], inputs)
    requires c.netlinkers == 1 && c.inetdiagers == 1 && !c.shutdownWorkers
    ensures s.requests > 0 ==> MaxLoopsOrForEver(s.requests - 1, c.maxLoops)
    ensures var xs, k := AllSockets(c, dumps, s.requests), |s.workers[0].processed|;
            var r := I.Life(hostname, c.reportModulus, inputs);
            && k <= |xs| && AllWell(xs[..k]) && r.Alive?
            && r.sent == OrderedRecords(hostname, c.reportModulus, start, xs[..k])
  {
    hide *;
    AnswersAreGood(c, dumps);
    ProcessedSoFar(c, s);
    SingleOrder(c, s);
    OnlyWorker(c, s);
    ExpectedInOrder(c, dumps, s.requests);
    var xs := AllSockets(c, dumps, s.requests);
    ProcessedFront(s, xs, Bufs(s.chans), UnsentNow(s), ReplySeq(c, s.loops, s.socket));
    LifeInOrder(hostname, c.reportModulus, start, s.workers[0], inputs, xs[..|s.workers[0].processed|]);
  }

  lemma ProcessedFront(s: State, xs: seq<Polled>, b: seq<Msg>, u: seq<Msg>, r: seq<Msg>)
    requires s.workers != [] && AllWell(xs) && InHand(s.workers[0]) + b + u + r == MsgsOf(xs)
    ensures var k := |s.workers[0].processed|;
            k <= |xs| && AllWell(xs[..k]) && s.workers[0].processed == MsgsOf(xs[..k])
  {
    hide I.WellFormedMessage, I.EncodeMessage;
    var p, k := s.workers[0].processed, |s.workers[0].processed|;
    assert p == MsgsOf(xs)[..k];
    assert MsgsOf(xs)[..k] == MsgsOf(xs[..k]);
  }

  /** When such a poller has finished, its inetdiager has sent the records of all its polls' sampled sockets,
      selected by the report modulus in the kernel's order: the output is a function of the dumps. */
  lemma SingleFinalOutput(c: Config, hostname: string, start: nat -> nat, dumps: nat -> seq<Dump>, s: State,
                          inputs: seq<I.Input>)
    requires Answers(c, dumps) && c.samplingModulus != 0 && c.reportModulus != 0
    requires Reachable(c, s) && s.crash == Alive && s.pc == Finished && s.workers != []
    requires LifeOf(start, s.workers[0], inputs)
    requires c.netlinkers == 1 && c.inetdiagers == 1 && !c.shutdownWorkers
    ensures s.requests > 0 ==> MaxLoopsOrForEver(s.requests - 1, c.maxLoops)
    ensures var r := I.Life(hostname, c.reportModulus, inputs);
            r.Alive? && r.sent == OrderedRecords(hostname, c.reportModulus, start, AllSockets(c, dumps, s.requests))
  {
    hide *;
    SingleSends(c, hostname, start, dumps, s, inputs);
    AnswersAreGood(c, dumps);
    EverythingDelivered(c, s);
    ExpectedInOrder(c, dumps, s.requests);
    SizesAgree(c, s.requests);
    OneWorkersTotal(c, s);
    var xs := AllSockets(c, dumps, s.requests);
    assert xs[..|xs|] == xs;
  }

  lemma OneWorkersTotal(c: Config, s: State)
    requires Reachable(c, s) && c.inetdiagers == 1 && !c.shutdownWorkers && s.workers != []
    ensures |Total(s.workers, Processed)| == |s.workers[0].processed|
  {
    StartedOnce(c, s);
    hide Reachable;
    assert s.workers[..0] == [];
    assert Total(s.workers, Processed) == multiset{} + Processed(s.workers[0]);
  }

  lemma {:induction false} OutgoingSize(stamp: nat, script: seq<Action>)
    ensures |Outgoing(stamp, script)| == |Sends(stamp, script)|
  {
    if script != [] { OutgoingSize(stamp, script[1..]); }
  }

  lemma {:induction false} ReplySize(c: Config, stamp: nat, rs: seq<Reception>)
    ensures |ReplySeq(c, stamp, rs)| == |ReplySends(c, stamp, rs)|
  {
    hide Acts, Outgoing, Sends;
    if rs != [] {
      OutgoingSize(stamp, Acts(c, rs[0]));
      ReplySize(c, stamp, rs[1..]);
    }
  }

  lemma {:induction false} SizesAgree(c: Config, n: nat)
    ensures |ExpectedSeq(c, n)| == |Expected(c, n)|
  {
    hide ReplySeq, ReplySends;
    if n > 0 {
      SizesAgree(c, n - 1);
      ReplySize(c, n - 1, c.kernel(n - 1));
    }
  }
}
