/** A netlinker's whole run over well-formed packets: what it emits and how its counters add up. */
module Throughput {
  import opened Bytes
  import opened InetDiag
  import opened Sampling
  import opened Netlinker
  import opened Framing

  predicate Receivable(ps: seq<Packet>, size: nat) {
    forall i :: 0 <= i < |ps| ==> WellFormedPacket(ps[i]) && NLMSG_HDRLEN <= |EncodePacket(ps[i])| <= size
  }

  function Receptions(ps: seq<Packet>): seq<Reception> {
    if ps == [] then [] else [Datagram(EncodePacket(ps[0]))] + Receptions(ps[1..])
  }

  function PacketLog(p: Packet, m: int): seq<Action>
    requires m != 0
  {
    Sampled(p.msgs, 0, m) + (if p.dones == [] then [] else [Done])
  }

  /** The sampled bodies in arrival order, a DONE wherever a packet ends with one. */
  function RunLog(ps: seq<Packet>, m: int): seq<Action>
    requires m != 0
  {
    if ps == [] then [] else PacketLog(ps[0], m) + RunLog(ps[1..], m)
  }

  function Received(ps: seq<Packet>): nat {
    if ps == [] then 0 else |EncodePacket(ps[0])| + Received(ps[1..])
  }

  function Bodies(ps: seq<Packet>): nat {
    if ps == [] then 0 else BodyBytes(ps[0].msgs) + Bodies(ps[1..])
  }

  function DoneTails(ps: seq<Packet>): nat {
    if ps == [] then 0 else |EncodeDone(ps[0].dones)| + DoneTails(ps[1..])
  }

  /** The counters after these packets, from those before. */
  function Counted(t: Totals, ps: seq<Packet>, m: int): Totals
    requires m != 0
  {
    Totals(t.packetsProcessed + |ps|, t.nastyContinue, t.inSizeTotal + Received(ps), t.msgCountTotal + Sum(Sizes(ps)),
           t.bytesReadTotal + Bodies(ps), t.copyBytesTotal + SentBytes(RunLog(ps, m)), t.errorCount)
  }

  lemma {:induction false} SentBytesConcat(a: seq<Action>, b: seq<Action>)
    ensures SentBytes(a + b) == SentBytes(a) + SentBytes(b)
  {
    if a == [] {
      assert a + b == b;
    } else {
      SentBytesConcat(a[1..], b);
      assert (a + b)[1..] == a[1..] + b;
    }
  }

  lemma PacketDoes(s: NetlinkerState, p: Packet, m: int)
    requires m != 0 && WellFormedPacket(p) && NLMSG_HDRLEN <= |EncodePacket(p)| <= |s.buffer|
    ensures var t := AfterReception(s, Datagram(EncodePacket(p)), m);
            && |t.buffer| == |s.buffer| && t.log == s.log + PacketLog(p, m)
            && t.totals == Totals(s.totals.packetsProcessed + 1, s.totals.nastyContinue, s.totals.inSizeTotal
                                  + |EncodePacket(p)|,
                                  s.totals.msgCountTotal + |p.msgs|, s.totals.bytesReadTotal + BodyBytes(p.msgs),
                                  s.totals.copyBytesTotal + SentBytes(PacketLog(p, m)), s.totals.errorCount)
  {
    PacketFraming(s.buffer, p, m);
    hide EncodePacket, WellFormedPacket, SplitReceived, Sampled, SentBytes, BodyBytes;
  }

  lemma StillAlive(log: seq<Action>, p: Packet, m: int)
    requires m != 0 && !Panicked(log)
    ensures !Panicked(log + PacketLog(p, m))
  {
    SampledOnlySends(p.msgs, 0, m);
    hide Sampled;
    var acts := PacketLog(p, m);
    if acts != [] {
      assert acts[|acts| - 1] in acts && Panic !in acts;
    }
  }

  /** Receptions that are no packet: errors, and datagrams shorter than a header, as far as the buffer holds them. */
  function Useless(seen: seq<Reception>, size: nat): nat {
    if seen == [] then 0
    else
      var r := seen[0];
      (if r.Failure? || |r.bytes| < 16 || size < 16 then 1 else 0) + Useless(seen[1..], size)
  }

  /** Bytes of the other receptions that fit the buffer. */
  function Accepted(seen: seq<Reception>, size: nat): nat {
    if seen == [] then 0
    else
      var r := seen[0];
      var n := if r.Failure? || |r.bytes| < 16 || size < 16 then 0 else if |r.bytes| <= size then |r.bytes| else size;
      n + Accepted(seen[1..], size)
  }

  /** Whatever arrives: every reception counts as a packet, useless ones apart, and the bytes are those accepted. */
  lemma {:induction false} AnyRunCounts(s: NetlinkerState, seen: seq<Reception>, m: int)
    ensures var t := AfterAll(s, seen, m);
            && |t.buffer| == |s.buffer|
            && (!Panicked(t.log) ==>
                  && t.totals.packetsProcessed == s.totals.packetsProcessed + |seen|
                  && t.totals.nastyContinue == s.totals.nastyContinue + Useless(seen, |s.buffer|)
                  && t.totals.inSizeTotal == s.totals.inSizeTotal + Accepted(seen, |s.buffer|))
    decreases |seen|
  {
    hide SplitReceived, Overwritten;
    if seen != [] && !Panicked(s.log) {
      AnyRunCounts(AfterReception(s, seen[0], m), seen[1..], m);
    }
  }

  /** What the reused buffer holds after a run: at each place the byte of the last datagram that reached it, one too
      short to be a packet included, or what was there before the run. */
  lemma {:induction false} BufferHolds(s: NetlinkerState, seen: seq<Reception>, m: int, i: nat, last: int)
    requires i < |s.buffer| && -1 <= last < |seen| && !Panicked(AfterAll(s, seen, m).log)
    requires last >= 0 ==> seen[last].Datagram? && i < |seen[last].bytes|
    requires forall j :: last < j < |seen| ==> seen[j].Failure? || |seen[j].bytes| <= i
    ensures var t := AfterAll(s, seen, m);
            |t.buffer| == |s.buffer| && t.buffer[i] == if last >= 0 then seen[last].bytes[i] else s.buffer[i]
    decreases |seen|
  {
    hide SplitReceived;
    if seen != [] {
      NotYetPanicked(s, seen, m);
      BufferHolds(AfterReception(s, seen[0], m), seen[1..], m, i, if last >= 1 then last - 1 else -1);
    }
  }

  lemma NotYetPanicked(s: NetlinkerState, seen: seq<Reception>, m: int)
    requires seen != [] && !Panicked(AfterAll(s, seen, m).log)
    ensures AfterAll(s, seen, m) == AfterAll(AfterReception(s, seen[0], m), seen[1..], m)
  {
    hide AfterReception;
  }

  /** The run as a whole: log and every counter, for any number of packets and any buffer contents before them. */
  lemma {:induction false} RunOfPackets(s: NetlinkerState, ps: seq<Packet>, m: int)
    requires m != 0 && Receivable(ps, |s.buffer|) && !Panicked(s.log)
    ensures var t := AfterAll(s, Receptions(ps), m);
            t.log == s.log + RunLog(ps, m) && t.totals == Counted(s.totals, ps, m)
    decreases |ps|
  {
    hide *;
    if ps == [] {
      NoPackets(s, m);
    } else {
      var p, later := ps[0], ps[1..];
      var s1 := AfterReception(s, Datagram(EncodePacket(p)), m);
      ReceivableRest(ps, |s.buffer|);
      PacketDoes(s, p, m);
      StillAlive(s.log, p, m);
      RunOfPackets(s1, later, m);
      FirstReception(s, ps, m);
      CountedStep(s.totals, s1.totals, ps, m);
      LogStep(s.log, ps, m);
    }
  }

  lemma ReceivableRest(ps: seq<Packet>, size: nat)
    requires Receivable(ps, size) && ps != []
    ensures Receivable(ps[1..], size) && WellFormedPacket(ps[0]) && NLMSG_HDRLEN <= |EncodePacket(ps[0])| <= size
  {
    hide WellFormedPacket, EncodePacket;
  }

  lemma FirstReception(s: NetlinkerState, ps: seq<Packet>, m: int)
    requires ps != [] && !Panicked(s.log)
    ensures AfterAll(s, Receptions(ps), m)
      == AfterAll(AfterReception(s, Datagram(EncodePacket(ps[0])), m), Receptions(ps[1..]), m)
  {
    hide EncodePacket, AfterReception, Panicked;
    assert Receptions(ps)[0] == Datagram(EncodePacket(ps[0])) && Receptions(ps)[1..] == Receptions(ps[1..]);
  }

  lemma LogStep(log: seq<Action>, ps: seq<Packet>, m: int)
    requires ps != [] && m != 0
    ensures (log + PacketLog(ps[0], m)) + RunLog(ps[1..], m) == log + RunLog(ps, m)
  {
    hide PacketLog;
    assert RunLog(ps, m) == PacketLog(ps[0], m) + RunLog(ps[1..], m);
  }

  lemma NoPackets(s: NetlinkerState, m: int)
    requires m != 0
    ensures s.log + [] == s.log && AfterAll(s, Receptions([]), m) == s && RunLog([], m) == []
    ensures Counted(s.totals, [], m) == s.totals
  {
  }

  lemma CountedStep(t: Totals, t1: Totals, ps: seq<Packet>, m: int)
    requires m != 0 && ps != []
    requires var p := ps[0];
             t1 == Totals(t.packetsProcessed + 1, t.nastyContinue, t.inSizeTotal + |EncodePacket(p)|,
                          t.msgCountTotal + |p.msgs|,
                          t.bytesReadTotal + BodyBytes(p.msgs), t.copyBytesTotal + SentBytes(PacketLog(p, m)),
                              t.errorCount)
    ensures Counted(t1, ps[1..], m) == Counted(t, ps, m)
  {
    hide EncodePacket, BodyBytes, SentBytes, PacketLog;
    SentBytesConcat(PacketLog(ps[0], m), RunLog(ps[1..], m));
    assert Sizes(ps)[1..] == Sizes(ps[1..]);
  }

  /** Bytes received are the body bytes read, 16 per data message, and the closing DONEs. */
  lemma {:induction false} InputAccounted(ps: seq<Packet>)
    ensures Received(ps) == Bodies(ps) + NLMSG_HDRLEN * Sum(Sizes(ps)) + DoneTails(ps)
  {
    hide EncodePacket, BodyBytes, EncodeDone;
    if ps != [] {
      ReceivedBytes(ps[0]);
      InputAccounted(ps[1..]);
      assert Sizes(ps)[1..] == Sizes(ps[1..]);
    }
  }

  function SendCount(acts: seq<Action>): nat {
    if acts == [] then 0 else (if acts[0].Send? then 1 else 0) + SendCount(acts[1..])
  }

  lemma {:induction false} SendCountConcat(a: seq<Action>, b: seq<Action>)
    ensures SendCount(a + b) == SendCount(a) + SendCount(b)
  {
    if a == [] {
      assert a + b == b;
    } else {
      SendCountConcat(a[1..], b);
      assert (a + b)[1..] == a[1..] + b;
    }
  }

  lemma {:induction false} AllSends(msgs: seq<NetlinkMessage>, count: nat, m: int)
    requires m != 0
    ensures SendCount(Sampled(msgs, count, m)) == |Sampled(msgs, count, m)|
  {
    hide Selected;
    if msgs != [] {
      AllSends(msgs[1..], count + 1, m);
      var later := Sampled(msgs[1..], count + 1, m);
      SendCountConcat(if Selected(count, m) then [Send(msgs[0].body)] else [], later);
      assert [Send(msgs[0].body)][1..] == [];
    }
  }

  lemma PacketSends(p: Packet, m: int)
    requires m != 0
    ensures SendCount(PacketLog(p, m)) == |Sampled(p.msgs, 0, m)|
  {
    AllSends(p.msgs, 0, m);
    SendCountConcat(Sampled(p.msgs, 0, m), if p.dones == [] then [] else [Done]);
    hide Sampled;
    assert [Done][1..] == [] && SendCount([Done]) == 0 && SendCount([]) == 0;
  }

  lemma {:induction false} RunSends(ps: seq<Packet>, m: int)
    requires m != 0
    ensures SendCount(RunLog(ps, m)) == SampledTotal(ps, m)
  {
    hide Sampled, PacketLog;
    if ps != [] {
      RunSends(ps[1..], m);
      PacketSends(ps[0], m);
      SendCountConcat(PacketLog(ps[0], m), RunLog(ps[1..], m));
    }
  }

  /** A fresh netlinker that receives P packets with N data messages sends S of them with N - P <= m S <= N + P (m - 2),
      copies exactly the bytes it sends, and accounts for every byte received. */
  lemma NetlinkerThroughput(size: nat, ps: seq<Packet>, m: int)
    requires m >= 1 && Receivable(ps, size)
    ensures var r := AfterAll(NetlinkerState(Zeros(size), ZERO_TOTALS, []), Receptions(ps), m);
            var t, sent := r.totals, SendCount(r.log);
            && t.inSizeTotal == t.bytesReadTotal + NLMSG_HDRLEN * t.msgCountTotal + DoneTails(ps)
            && t.copyBytesTotal == SentBytes(r.log) && t.errorCount == 0 && t.packetsProcessed == |ps|
            && t.msgCountTotal == Sum(Sizes(ps)) && sent == SelectedTotal(Sizes(ps), m)
            && (m == 1 ==> sent == t.msgCountTotal)
            && (m >= 2 ==> t.msgCountTotal - |ps| <= m * sent <= t.msgCountTotal + |ps| * (m - 2))
  {
    var s := NetlinkerState(Zeros(size), ZERO_TOTALS, []);
    assert |s.buffer| == size && !Panicked(s.log);
    assert [] + RunLog(ps, m) == RunLog(ps, m);
    hide *;
    RunOfPackets(s, ps, m);
    InputAccounted(ps);
    RunSends(ps, m);
    SampledTotalIs(ps, m);
    SamplingBound(ps, m);
    CountedFromZero(ps, m);
  }

  lemma CountedFromZero(ps: seq<Packet>, m: int)
    requires m != 0
    ensures var t := Counted(ZERO_TOTALS, ps, m);
            t == Totals(|ps|, 0, Received(ps), Sum(Sizes(ps)), Bodies(ps), SentBytes(RunLog(ps, m)), 0)
  {
    hide Received, Sum, Sizes, Bodies, SentBytes, RunLog;
  }
}
