/** The kernel's packets, and what the splitter makes of them whatever is left in the receive buffer. */
module Framing {
  import opened Bytes
  import opened InetDiag
  import opened Sampling
  import opened Netlinker
  import Wire

  // ---- Packets ----

  /** A multipart message; its length field counts the 16-byte header (section 2.3.2 of RFC 3549). */
  datatype NetlinkMessage = NetlinkMessage(msgType: nat, sequence: nat, pid: nat, body: seq<byte>)

  /** The closing NLMSG_DONE, whose length, flags and payload the splitter never looks at. */
  datatype DoneMessage = DoneMessage(length: nat, flags: nat, sequence: nat, pid: nat, tail: seq<byte>)

  datatype Packet = Packet(msgs: seq<NetlinkMessage>, dones: seq<DoneMessage>)

  function HeaderOf(x: NetlinkMessage): NlMsgHdr {
    NlMsgHdr(16 + |x.body|, x.msgType, 2, x.sequence, x.pid)
  }

  function DoneHeader(d: DoneMessage): NlMsgHdr {
    NlMsgHdr(d.length, 3, d.flags, d.sequence, d.pid)
  }

  /** The type is not one of NOOP, ERROR, DONE and OVERRUN: the dumps of section 2.3.2 of RFC 3549 carry type 20. */
  predicate WellFormedMessage(x: NetlinkMessage) {
    FitsNlMsgHdr(HeaderOf(x)) && x.msgType !in {1, 2, 3, 4}
  }

  predicate WellFormedPacket(p: Packet) {
    && (forall i :: 0 <= i < |p.msgs| ==>
        WellFormedMessage(p.msgs[i]))
    && |p.dones| <= 1
    && (forall i :: 0 <= i < |p.dones| ==> FitsNlMsgHdr(DoneHeader(p.dones[i])))
  }

  function EncodeMsgs(msgs: seq<NetlinkMessage>): seq<byte> {
    if msgs == [] then [] else EncodeNlMsgHdr(HeaderOf(msgs[0])) + msgs[0].body + EncodeMsgs(msgs[1..])
  }

  function EncodeDone(dones: seq<DoneMessage>): seq<byte> {
    if dones == [] then [] else EncodeNlMsgHdr(DoneHeader(dones[0])) + dones[0].tail
  }

  function EncodePacket(p: Packet): seq<byte> {
    EncodeMsgs(p.msgs) + EncodeDone(p.dones)
  }

  /** The sends of the sampled bodies, in packet order; count is the index of the first message in its packet. */
  function Sampled(msgs: seq<NetlinkMessage>, count: nat, m: int): seq<Action>
    requires m != 0
  {
    if msgs == [] then []
    else (if Selected(count, m) then [Send(msgs[0].body)] else []) + Sampled(msgs[1..], count + 1, m)
  }

  lemma {:induction false} SampledOnlySends(msgs: seq<NetlinkMessage>, count: nat, m: int)
    requires m != 0
    ensures forall a :: a in Sampled(msgs, count, m) ==> a.Send?
  {
    hide Selected;
    if msgs != [] { SampledOnlySends(msgs[1..], count + 1, m); }
  }

  function BodyBytes(msgs: seq<NetlinkMessage>): nat {
    if msgs == [] then 0 else |msgs[0].body| + BodyBytes(msgs[1..])
  }

  function SentBytes(acts: seq<Action>): nat {
    if acts == [] then 0 else (if acts[0].Send? then |acts[0].body| else 0) + SentBytes(acts[1..])
  }

  lemma SplitOneMessage(x: NetlinkMessage, tail: seq<byte>, remaining: int, count: nat, m: int)
    requires WellFormedMessage(x) && m != 0
    requires remaining >= NLMSG_HDRLEN
    ensures var acts := if Selected(count, m) then [Send(x.body)] else [];
            var sent := if Selected(count, m) then |x.body| else 0;
            SplitPacket(EncodeNlMsgHdr(HeaderOf(x)) + x.body + tail, remaining, count, m)
            == Before(acts, |x.body|, sent, 0, SplitPacket(tail, remaining - NLMSG_HDRLEN - |x.body|, count + 1, m))
  {
    hide *;
    ReadOneMessage(x, tail, remaining, count, m);
    SplitStep(EncodeNlMsgHdr(HeaderOf(x)) + x.body + tail, remaining, count, m);
  }

  lemma SplitStep(rest: seq<byte>, remaining: int, count: nat, m: int)
    requires remaining >= NLMSG_HDRLEN
    ensures var r := ReadMessage(rest, remaining, count, m);
            r.Go? ==> SplitPacket(rest, remaining, count, m)
                      == Before(r.actions, r.bytesRead, r.copyBytes, r.errors,
                                SplitPacket(r.rest, r.remaining, count + 1, m))
  {
    hide ReadMessage;
  }

  lemma ReadOneMessage(x: NetlinkMessage, tail: seq<byte>, remaining: int, count: nat, m: int)
    requires WellFormedMessage(x) && m != 0
    ensures var acts := if Selected(count, m) then [Send(x.body)] else [];
            var sent := if Selected(count, m) then |x.body| else 0;
            ReadMessage(EncodeNlMsgHdr(HeaderOf(x)) + x.body + tail, remaining, count, m)
            == Go(acts, 0, |x.body|, sent, tail, remaining - NLMSG_HDRLEN - |x.body|)
  {
    HeaderFirst(HeaderOf(x), x.body + tail);
    assert EncodeNlMsgHdr(HeaderOf(x)) + x.body + tail == EncodeNlMsgHdr(HeaderOf(x)) + (x.body + tail);
    hide EncodeNlMsgHdr, DecodeNlMsgHdr, FitsNlMsgHdr, Selected;
    assert (x.body + tail)[..|x.body|] == x.body && (x.body + tail)[|x.body|..] == tail;
  }

  lemma HeaderFirst(h: NlMsgHdr, tail: seq<byte>)
    requires FitsNlMsgHdr(h)
    ensures var rest := EncodeNlMsgHdr(h) + tail;
            |rest| >= NLMSG_HDRLEN && DecodeNlMsgHdr(rest[..NLMSG_HDRLEN]) == h && rest[NLMSG_HDRLEN..] == tail
  {
    NlMsgHdrRoundTrip(h);
    hide DecodeNlMsgHdr, FitsNlMsgHdr;
    assert (EncodeNlMsgHdr(h) + tail)[..NLMSG_HDRLEN] == EncodeNlMsgHdr(h);
  }

  /** One turn of the inner loop, byte by byte: length in bytes 0 to 3, type in 4 and 5, flags in 6 and 7. A body the
      buffer cuts short is delivered as zeros, and not at all when nothing of it is left. */
  lemma MessageOnWire(rest: seq<byte>, remaining: int, count: nat, m: int)
    requires |rest| >= 16 && m != 0
    ensures var n, t, flags := Value(rest[0..4]) - 16, rest[4] as nat + 256 * rest[5] as nat,
                               rest[6] as nat + 256 * rest[7] as nat;
            var left, chosen := remaining - 16, m == 1 || count % m == 1;
            ReadMessage(rest, remaining, count, m)
            == if t in {1, 2, 4} then End([], 1, left)
               else if t == 3 then End([Done], 0, left)
               else if flags != 2 then Go([], 1, 0, 0, rest[16..], left)
               else if n < 0 then End([Panic], 0, left)
               else if 16 + n <= |rest| then
                 Go(if chosen then [Send(rest[16..16 + n])] else [], 0, n, if chosen then n else 0, rest[16 + n..],
                    left - n)
               else if |rest| == 16 then Go([], 0, 0, 0, [], left)
               else Go(if chosen then [Send(Zeros(n))] else [], 0, n, if chosen then n else 0, [], left - n)
  {
    HeaderOnWire(rest);
    hide DecodeNlMsgHdr, Value;
    var n := Value(rest[0..4]) - 16;
    if n >= 0 && 16 + n <= |rest| {
      assert rest[16..][..n] == rest[16..16 + n] && rest[16..][n..] == rest[16 + n..];
    }
  }

  lemma HeaderOnWire(rest: seq<byte>)
    requires |rest| >= 16
    ensures var h := DecodeNlMsgHdr(rest[..16]);
            && h.length == Value(rest[0..4]) && h.msgType == rest[4] as nat + 256 * rest[5] as nat
            && h.flags == rest[6] as nat + 256 * rest[7] as nat && h.sequence == Value(rest[8..12])
            && h.pid == Value(rest[12..16])
  {
    var b := rest[..16];
    Wire.NlMsgHdrOnWire(b);
    Wire.TwoByteValue(b[4..6]);
    Wire.TwoByteValue(b[6..8]);
    hide Value, DecodeNlMsgHdr;
    assert b[0..4] == rest[0..4] && b[8..12] == rest[8..12] && b[12..16] == rest[12..16];
  }

  /** What a packet's messages leave, followed by what the splitter makes of the bytes behind them. */
  function Joined(msgs: seq<NetlinkMessage>, count: nat, m: int, s: Split): Split
    requires m != 0
  {
    var acts := Sampled(msgs, count, m);
    Split(acts + s.actions, |msgs| + s.msgs, BodyBytes(msgs) + s.bytesRead, SentBytes(acts) + s.copyBytes, s.errors,
          s.remaining)
  }

  /** Well-formed messages are taken off the front one by one, whatever follows them. */
  lemma {:induction false} MessagesThen(msgs: seq<NetlinkMessage>, tail: seq<byte>, left: nat, count: nat, m: int)
    requires m != 0 && forall i :: 0 <= i < |msgs| ==> WellFormedMessage(msgs[i])
    ensures SplitPacket(EncodeMsgs(msgs) + tail, |EncodeMsgs(msgs)| + left, count, m)
         == Joined(msgs, count, m, SplitPacket(tail, left, count + |msgs|, m))
    decreases msgs
  {
    hide EncodeNlMsgHdr, WellFormedMessage, Selected, SplitPacket, Sampled;
    if msgs == [] {
      NoMessages(tail, left, count, m);
    } else {
      var x, later := msgs[0], msgs[1..];
      MessagesThen(later, tail, left, count + 1, m);
      SplitOneMessage(x, EncodeMsgs(later) + tail, |EncodeMsgs(msgs)| + left, count, m);
      assert EncodeMsgs(msgs) + tail == EncodeNlMsgHdr(HeaderOf(x)) + x.body + (EncodeMsgs(later) + tail);
      SampledStep(msgs, count, m, SplitPacket(tail, left, count + |msgs|, m).actions);
    }
  }

  lemma NoMessages(tail: seq<byte>, left: nat, count: nat, m: int)
    requires m != 0
    ensures EncodeMsgs([]) + tail == tail
    ensures var s := SplitPacket(tail, left, count, m); Joined([], count, m, s) == s
  {
    hide SplitPacket;
    assert [] + SplitPacket(tail, left, count, m).actions == SplitPacket(tail, left, count, m).actions;
  }

  lemma SplitDone(d: DoneMessage, stale: seq<byte>, remaining: int, count: nat, m: int)
    requires FitsNlMsgHdr(DoneHeader(d)) && remaining >= NLMSG_HDRLEN
    ensures SplitPacket(EncodeNlMsgHdr(DoneHeader(d)) + d.tail + stale, remaining, count, m)
      == Split([Done], 0, 0, 0, 0, remaining - NLMSG_HDRLEN)
  {
    HeaderFirst(DoneHeader(d), d.tail + stale);
    assert EncodeNlMsgHdr(DoneHeader(d)) + d.tail + stale == EncodeNlMsgHdr(DoneHeader(d)) + (d.tail + stale);
    hide EncodeNlMsgHdr, DecodeNlMsgHdr, FitsNlMsgHdr;
  }

  /** A packet cut off by NOOP, ERROR or OVERRUN: the messages before it count, one error is counted, and what is
      behind it, a DONE included, is never looked at. */
  lemma CutOffPacket(msgs: seq<NetlinkMessage>, h: NlMsgHdr, behind: seq<byte>, stale: seq<byte>, m: int)
    requires m != 0 && forall i :: 0 <= i < |msgs| ==> WellFormedMessage(msgs[i])
    requires FitsNlMsgHdr(h) && h.msgType in {1, 2, 4}
    ensures var bytes, acts := EncodeMsgs(msgs) + EncodeNlMsgHdr(h) + behind, Sampled(msgs, 0, m);
            SplitPacket(bytes + stale, |bytes|, 0, m)
            == Split(acts, |msgs|, BodyBytes(msgs), SentBytes(acts), 1, |behind|)
  {
    hide *;
    var front, head := EncodeMsgs(msgs), EncodeNlMsgHdr(h);
    CutOffHere(h, behind + stale, |behind|, |msgs|, m);
    MessagesThen(msgs, head + (behind + stale), 16 + |behind|, 0, m);
    assert front + head + behind + stale == front + (head + (behind + stale));
    JoinedIs(msgs, 0, m, Split([], 0, 0, 0, 1, |behind|));
    assert Sampled(msgs, 0, m) + [] == Sampled(msgs, 0, m);
  }

  lemma CutOffHere(h: NlMsgHdr, behind: seq<byte>, left: nat, count: nat, m: int)
    requires m != 0 && FitsNlMsgHdr(h) && h.msgType in {1, 2, 4}
    ensures |EncodeNlMsgHdr(h)| == 16
    ensures SplitPacket(EncodeNlMsgHdr(h) + behind, 16 + left, count, m) == Split([], 0, 0, 0, 1, left)
  {
    HeaderFirst(h, behind);
    hide EncodeNlMsgHdr, DecodeNlMsgHdr, FitsNlMsgHdr;
  }

  lemma JoinedIs(msgs: seq<NetlinkMessage>, count: nat, m: int, s: Split)
    requires m != 0
    ensures var acts := Sampled(msgs, count, m);
            Joined(msgs, count, m, s)
            == Split(acts + s.actions, |msgs| + s.msgs, BodyBytes(msgs) + s.bytesRead, SentBytes(acts) + s.copyBytes,
                     s.errors, s.remaining)
  {
  }

  /** A message that is not NLM_F_MULTI counts as a message and as an error, and the splitter goes on right behind
      its header: its body is taken for the next header. */
  lemma NotMultipart(msgs: seq<NetlinkMessage>, h: NlMsgHdr, behind: seq<byte>, left: nat, m: int)
    requires m != 0 && forall i :: 0 <= i < |msgs| ==> WellFormedMessage(msgs[i])
    requires FitsNlMsgHdr(h) && h.msgType !in {1, 2, 3, 4} && h.flags != 2
    ensures var s := SplitPacket(behind, left, |msgs| + 1, m);
            SplitPacket(EncodeMsgs(msgs) + EncodeNlMsgHdr(h) + behind, |EncodeMsgs(msgs)| + 16 + left, 0, m)
            == Joined(msgs, 0, m, s.(msgs := s.msgs + 1, errors := s.errors + 1))
  {
    hide *;
    SkippedHere(h, behind, left, |msgs|, m);
    MessagesThen(msgs, EncodeNlMsgHdr(h) + behind, 16 + left, 0, m);
    assert EncodeMsgs(msgs) + EncodeNlMsgHdr(h) + behind == EncodeMsgs(msgs) + (EncodeNlMsgHdr(h) + behind);
  }

  lemma SkippedHere(h: NlMsgHdr, behind: seq<byte>, left: nat, count: nat, m: int)
    requires m != 0 && FitsNlMsgHdr(h) && h.msgType !in {1, 2, 3, 4} && h.flags != 2
    ensures var s := SplitPacket(behind, left, count + 1, m);
            SplitPacket(EncodeNlMsgHdr(h) + behind, 16 + left, count, m)
            == s.(msgs := s.msgs + 1, errors := s.errors + 1)
  {
    hide SplitPacket, ReadMessage, Before, EncodeNlMsgHdr, FitsNlMsgHdr;
    var s := SplitPacket(behind, left, count + 1, m);
    ReadNotMultipart(h, behind, 16 + left, count, m);
    SplitStep(EncodeNlMsgHdr(h) + behind, 16 + left, count, m);
    NothingBefore(s);
  }

  lemma ReadNotMultipart(h: NlMsgHdr, behind: seq<byte>, remaining: int, count: nat, m: int)
    requires m != 0 && FitsNlMsgHdr(h) && h.msgType !in {1, 2, 3, 4} && h.flags != 2
    ensures ReadMessage(EncodeNlMsgHdr(h) + behind, remaining, count, m) == Go([], 1, 0, 0, behind, remaining - 16)
  {
    HeaderFirst(h, behind);
    hide EncodeNlMsgHdr, DecodeNlMsgHdr, FitsNlMsgHdr;
  }

  lemma NothingBefore(s: Split)
    ensures Before([], 0, 0, 1, s) == s.(msgs := s.msgs + 1, errors := s.errors + 1)
  {
    assert [] + s.actions == s.actions;
  }

  lemma FramingFrom(p: Packet, stale: seq<byte>, count: nat, m: int)
    requires WellFormedPacket(p) && m != 0
    ensures var acts := Sampled(p.msgs, count, m);
            SplitPacket(EncodePacket(p) + stale, |EncodePacket(p)|, count, m)
            == Split(acts + (if p.dones == [] then [] else [Done]), |p.msgs|, BodyBytes(p.msgs), SentBytes(acts), 0,
                     if p.dones == [] then 0 else |p.dones[0].tail|)
  {
    hide *;
    PacketIs(p, stale);
    Closing(p, stale, count + |p.msgs|, m);
    var last := EncodeDone(p.dones);
    MessagesThen(p.msgs, last + stale, |last|, count, m);
    JoinedIs(p.msgs, count, m, SplitPacket(last + stale, |last|, count + |p.msgs|, m));
    assert p.dones == [] ==> Sampled(p.msgs, count, m) + [] == Sampled(p.msgs, count, m);
  }

  lemma PacketIs(p: Packet, stale: seq<byte>)
    requires WellFormedPacket(p)
    ensures forall i :: 0 <= i < |p.msgs| ==> WellFormedMessage(p.msgs[i])
    ensures EncodePacket(p) + stale == EncodeMsgs(p.msgs) + (EncodeDone(p.dones) + stale)
    ensures |EncodePacket(p)| == |EncodeMsgs(p.msgs)| + |EncodeDone(p.dones)|
  {
    hide EncodeMsgs, EncodeDone, WellFormedMessage;
  }

  lemma Closing(p: Packet, stale: seq<byte>, count: nat, m: int)
    requires WellFormedPacket(p)
    ensures SplitPacket(EncodeDone(p.dones) + stale, |EncodeDone(p.dones)|, count, m)
      == if p.dones == [] then Split([], 0, 0, 0, 0, 0) else Split([Done], 0, 0, 0, 0, |p.dones[0].tail|)
  {
    hide EncodeNlMsgHdr, FitsNlMsgHdr, WellFormedMessage;
    if p.dones != [] {
      SplitDone(p.dones[0], stale, |EncodeDone(p.dones)|, count, m);
    }
  }

  lemma SampledStep(msgs: seq<NetlinkMessage>, count: nat, m: int, last: seq<Action>)
    requires m != 0 && msgs != []
    ensures var acts := if Selected(count, m) then [Send(msgs[0].body)] else [];
            var later := Sampled(msgs[1..], count + 1, m);
            Sampled(msgs, count, m) + last == acts + (later + last)
            && SentBytes(Sampled(msgs, count, m)) == (if Selected(count, m) then |msgs[0].body| else 0)
                + SentBytes(later)
  {
    hide Selected;
    var later := Sampled(msgs[1..], count + 1, m);
    if Selected(count, m) {
      var all := [Send(msgs[0].body)] + later;
      assert Sampled(msgs, count, m) == all && all[1..] == later;
      assert all + last == [Send(msgs[0].body)] + (later + last);
    } else {
      assert Sampled(msgs, count, m) == later;
      assert later + last == [] + (later + last);
    }
  }

  /** Packet framing: a well-formed packet gives its sampled bodies in order, then DONE exactly when it ends
      with DONE. */
  lemma PacketFraming(buffer: seq<byte>, p: Packet, m: int)
    requires WellFormedPacket(p) && m != 0 && |EncodePacket(p)| <= |buffer|
    ensures var s := SplitReceived(buffer, EncodePacket(p), m);
            && s.actions == Sampled(p.msgs, 0, m) + (if p.dones == [] then [] else [Done])
            && s.msgs == |p.msgs| && s.errors == 0 && s.bytesRead == BodyBytes(p.msgs)
            && s.copyBytes == SentBytes(s.actions)
            && (p.dones == [] ==> s.remaining == 0)
  {
    var bytes := EncodePacket(p);
    FramingFrom(p, buffer[|bytes|..], 0, m);
    assert Overwritten(buffer, bytes) == bytes + buffer[|bytes|..];
    SentBytesDone(Sampled(p.msgs, 0, m));
  }

  lemma {:induction false} SentBytesDone(acts: seq<Action>)
    ensures SentBytes(acts + [Done]) == SentBytes(acts) && acts + [] == acts
  {
    if acts != [] {
      SentBytesDone(acts[1..]);
      assert (acts + [Done])[1..] == acts[1..] + [Done];
    } else {
      assert acts + [Done] == [Done] && [Done][1..] == [];
    }
  }

  /** Every received byte is a counted body byte, a message header, or part of the closing DONE. */
  lemma {:induction false} ReceivedBytes(p: Packet)
    ensures |EncodePacket(p)| == BodyBytes(p.msgs) + NLMSG_HDRLEN * |p.msgs| + |EncodeDone(p.dones)|
    decreases |p.msgs|
  {
    if p.msgs != [] {
      ReceivedBytes(Packet(p.msgs[1..], p.dones));
    }
  }

  lemma {:induction false} SampledCount(msgs: seq<NetlinkMessage>, count: nat, m: int)
    requires m != 0
    ensures SelectedCount(count, m) + |Sampled(msgs, count, m)| == SelectedCount(count + |msgs|, m)
    decreases |msgs|
  {
    hide Selected;
    if msgs != [] {
      SampledCount(msgs[1..], count + 1, m);
    }
  }

  function Sizes(ps: seq<Packet>): (n: seq<nat>)
    ensures |n| == |ps|
  {
    if ps == [] then [] else [|ps[0].msgs|] + Sizes(ps[1..])
  }

  function SampledTotal(ps: seq<Packet>, m: int): nat
    requires m != 0
  {
    if ps == [] then 0 else |Sampled(ps[0].msgs, 0, m)| + SampledTotal(ps[1..], m)
  }

  lemma {:induction false} SampledTotalIs(ps: seq<Packet>, m: int)
    requires m != 0
    ensures SampledTotal(ps, m) == SelectedTotal(Sizes(ps), m)
  {
    hide Selected;
    if ps != [] {
      SampledCount(ps[0].msgs, 0, m);
      SampledTotalIs(ps[1..], m);
      assert Sizes(ps)[1..] == Sizes(ps[1..]);
    }
  }

  /** Sampling N messages that arrive in P packets sends S of them with N - P <= m S <= N + P (m - 2); all when
      m is 1. */
  lemma SamplingBound(ps: seq<Packet>, m: int)
    requires m >= 1
    ensures m == 1 ==> SampledTotal(ps, m) == Sum(Sizes(ps))
    ensures m >= 2 ==> Sum(Sizes(ps)) - |ps| <= m * SampledTotal(ps, m) <= Sum(Sizes(ps)) + |ps| * (m - 2)
  {
    SampledTotalIs(ps, m);
    SelectedTotalBounds(Sizes(ps), m);
  }

  // ---- Stale bytes ----

  /** Received bytes p lead to a sampled body that runs past them, yet not past the buffer's k further bytes. */
  predicate Overruns(p: seq<byte>, k: nat, count: nat, m: int)
    requires m != 0
    decreases |p|
  {
    if |p| < NLMSG_HDRLEN then false
    else
      var h, p1 := DecodeNlMsgHdr(p[..NLMSG_HDRLEN]), p[NLMSG_HDRLEN..];
      if h.msgType in {1, 2, 3, 4} then false
      else if h.flags != 2 then Overruns(p1, k, count + 1, m)
      else if h.length < NLMSG_HDRLEN then false
      else if h.length - NLMSG_HDRLEN <= |p1| then Overruns(p1[h.length - NLMSG_HDRLEN..], k, count + 1, m)
      else h.length - NLMSG_HDRLEN <= |p1| + k && Selected(count, m)
  }

  /** The first message of p, seen through two buffers that differ only behind p: `next` is where the second starts. */
  predicate SeenThrough(p: seq<byte>, s: seq<byte>, t: seq<byte>, count: nat, m: int, next: int)
    requires |s| == |t| && |p| >= NLMSG_HDRLEN && m != 0
  {
    var a, b := ReadMessage(p + s, |p|, count, m), ReadMessage(p + t, |p|, count, m);
    if NLMSG_HDRLEN <= next <= |p| then Inside(a, b, p, s, t, next)
        && Overruns(p, |s|, count, m) == Overruns(p[next..], |s|, count + 1, m)
    else next == -1 && if Overruns(p, |s|, count, m) then Leaking(a, b, p, s, t) else a == b || Discarded(a, b)
  }

  lemma FirstMessage(p: seq<byte>, s: seq<byte>, t: seq<byte>, count: nat, m: int) returns (next: int)
    requires |s| == |t| && |p| >= NLMSG_HDRLEN && m != 0
    ensures SeenThrough(p, s, t, count, m, next)
  {
    var h := DecodeNlMsgHdr(p[..NLMSG_HDRLEN]);
    hide *;
    if h.msgType !in {1, 2, 3, 4} && h.flags == 2 && h.length >= NLMSG_HDRLEN {
      next := FirstMulti(p, s, t, count, m, h);
    } else {
      next := FirstOther(p, s, t, count, m, h);
    }
  }

  lemma FirstOther(p: seq<byte>, s: seq<byte>, t: seq<byte>, count: nat, m: int, h: NlMsgHdr) returns (next: int)
    requires |s| == |t| && |p| >= NLMSG_HDRLEN && m != 0 && h == DecodeNlMsgHdr(p[..NLMSG_HDRLEN])
    requires h.msgType in {1, 2, 3, 4} || h.flags != 2 || h.length < NLMSG_HDRLEN
    ensures SeenThrough(p, s, t, count, m, next)
  {
    HeaderRead(p, s, count, m);
    HeaderRead(p, t, count, m);
    OverrunsStep(p, |s|, count, m);
    hide ReadMessage, DecodeNlMsgHdr, ReadMulti, Overruns, Leaking, Discarded, Selected;
    next := if h.msgType in {1, 2, 3, 4} || h.flags == 2 then -1 else NLMSG_HDRLEN;
  }

  lemma FirstMulti(p: seq<byte>, s: seq<byte>, t: seq<byte>, count: nat, m: int, h: NlMsgHdr) returns (next: int)
    requires |s| == |t| && |p| >= NLMSG_HDRLEN && m != 0 && h == DecodeNlMsgHdr(p[..NLMSG_HDRLEN])
    requires h.msgType !in {1, 2, 3, 4} && h.flags == 2 && h.length >= NLMSG_HDRLEN
    ensures SeenThrough(p, s, t, count, m, next)
  {
    hide *;
    HeaderRead(p, s, count, m);
    HeaderRead(p, t, count, m);
    OverrunsStep(p, |s|, count, m);
    var a, b := ReadMessage(p + s, |p|, count, m), ReadMessage(p + t, |p|, count, m);
    if h.length <= |p| {
      next := h.length;
      MultiInside(p, s, t, h.length - NLMSG_HDRLEN, count, m);
      SeenInside(p, s, t, count, m, next, a, b);
    } else {
      next := -1;
      MultiOutside(p, s, t, h.length - NLMSG_HDRLEN, count, m);
      SeenOutside(p, s, t, count, m, a, b);
    }
  }

  lemma SeenInside(p: seq<byte>, s: seq<byte>, t: seq<byte>, count: nat, m: int, next: int, a: MessageStep,
                   b: MessageStep)
    requires |s| == |t| && NLMSG_HDRLEN <= next <= |p| && m != 0
    requires a == ReadMessage(p + s, |p|, count, m) && b == ReadMessage(p + t, |p|, count, m)
    requires Inside(a, b, p, s, t, next)
    requires Overruns(p, |s|, count, m) == Overruns(p[next..], |s|, count + 1, m)
    ensures SeenThrough(p, s, t, count, m, next)
  {
    hide ReadMessage, Overruns, Inside;
  }

  lemma SeenOutside(p: seq<byte>, s: seq<byte>, t: seq<byte>, count: nat, m: int, a: MessageStep, b: MessageStep)
    requires |s| == |t| && |p| >= NLMSG_HDRLEN && m != 0
    requires a == ReadMessage(p + s, |p|, count, m) && b == ReadMessage(p + t, |p|, count, m)
    requires if Overruns(p, |s|, count, m) then Leaking(a, b, p, s, t) else a == b || Discarded(a, b)
    ensures SeenThrough(p, s, t, count, m, -1)
  {
    hide ReadMessage, Overruns, Leaking, Discarded;
  }

  /** Overruns, told from the first header. */
  lemma OverrunsStep(p: seq<byte>, k: nat, count: nat, m: int)
    requires |p| >= NLMSG_HDRLEN && m != 0
    ensures NLMSG_HDRLEN == 16
    ensures var h, p1 := DecodeNlMsgHdr(p[..NLMSG_HDRLEN]), p[NLMSG_HDRLEN..];
            var n := h.length - NLMSG_HDRLEN;
            Overruns(p, k, count, m)
            == if h.msgType in {1, 2, 3, 4} then false
               else if h.flags != 2 then Overruns(p1, k, count + 1, m)
               else if n < 0 then false
               else if n <= |p1| then Overruns(p1[n..], k, count + 1, m)
               else n <= |p1| + k && Selected(count, m)
  {
    hide DecodeNlMsgHdr, Selected;
  }

  /** The header lies within p: what is read depends on the bytes behind p only through the body. */
  lemma HeaderRead(p: seq<byte>, s: seq<byte>, count: nat, m: int)
    requires |p| >= NLMSG_HDRLEN && m != 0
    ensures var h, left := DecodeNlMsgHdr(p[..NLMSG_HDRLEN]), |p| - NLMSG_HDRLEN;
            var r, ends := ReadMessage(p + s, |p|, count, m), h.msgType in {1, 2, 3, 4};
            && (ends ==> r == End(if h.msgType == 3 then [Done] else [], if h.msgType == 3 then 0 else 1, left))
            && (!ends && h.flags != 2 ==> r == Go([], 1, 0, 0, p[NLMSG_HDRLEN..] + s, left))
            && (!ends && h.flags == 2 && h.length < NLMSG_HDRLEN ==> r == End([Panic], 0, left))
            && (!ends && h.flags == 2 && h.length >= NLMSG_HDRLEN ==>
                  r == ReadMulti(h.length - NLMSG_HDRLEN, p[NLMSG_HDRLEN..] + s, left, count, m))
  {
    HeaderInside(p, s);
    hide DecodeNlMsgHdr, ReadMulti;
  }

  predicate Inside(a: MessageStep, b: MessageStep, p: seq<byte>, s: seq<byte>, t: seq<byte>, next: nat)
    requires next <= |p|
  {
    a.Go? && a.rest == p[next..] + s && a.remaining == |p| - next && b == a.(rest := p[next..] + t)
  }

  /** Both read a body that starts with the rest of p and goes on into what is behind it. */
  predicate Leaking(a: MessageStep, b: MessageStep, p: seq<byte>, s: seq<byte>, t: seq<byte>)
    requires |s| == |t| && |p| >= NLMSG_HDRLEN
  {
    && a.Go? && b.Go? && a.remaining < 0 && b.remaining < 0 && |a.actions| == |b.actions| == 1
    && a.actions[0].Send? && b.actions[0].Send?
    && (var n := |a.actions[0].body|;
        && |p| - NLMSG_HDRLEN < n == |b.actions[0].body| <= |p| - NLMSG_HDRLEN + |s|
        && a.actions[0].body == (p[NLMSG_HDRLEN..] + s)[..n] && b.actions[0].body == (p[NLMSG_HDRLEN..] + t)[..n])
  }

  predicate Discarded(a: MessageStep, b: MessageStep) {
    a.Go? && b.Go? && a == b.(rest := a.rest) && a.remaining < 0
  }

  lemma MultiInside(p: seq<byte>, s: seq<byte>, t: seq<byte>, n: nat, count: nat, m: int)
    requires |s| == |t| && |p| >= NLMSG_HDRLEN && NLMSG_HDRLEN + n <= |p| && m != 0
    ensures var p1, left := p[NLMSG_HDRLEN..], |p| - NLMSG_HDRLEN;
            Inside(ReadMulti(n, p1 + s, left, count, m), ReadMulti(n, p1 + t, left, count, m), p, s, t,
                   NLMSG_HDRLEN + n)
            && p[NLMSG_HDRLEN + n..] == p1[n..]
  {
    BodyInside(p[NLMSG_HDRLEN..], s, n);
    BodyInside(p[NLMSG_HDRLEN..], t, n);
    hide Selected;
  }

  lemma MultiOutside(p: seq<byte>, s: seq<byte>, t: seq<byte>, n: nat, count: nat, m: int)
    requires |s| == |t| && |p| >= NLMSG_HDRLEN && NLMSG_HDRLEN + n > |p| && m != 0
    ensures var p1, left := p[NLMSG_HDRLEN..], |p| - NLMSG_HDRLEN;
            var a, b := ReadMulti(n, p1 + s, left, count, m), ReadMulti(n, p1 + t, left, count, m);
            if n <= left + |s| && Selected(count, m) then Leaking(a, b, p, s, t) else a == b || Discarded(a, b)
  {
    hide Selected;
    var p1 := p[NLMSG_HDRLEN..];
    assert p1 + s == [] ==> s == [] && t == [] && p1 == [];
    assert p1 + t == [] ==> s == [] && t == [] && p1 == [];
  }

  lemma HeaderInside(p: seq<byte>, s: seq<byte>)
    requires |p| >= NLMSG_HDRLEN
    ensures (p + s)[..NLMSG_HDRLEN] == p[..NLMSG_HDRLEN] && (p + s)[NLMSG_HDRLEN..] == p[NLMSG_HDRLEN..] + s
  {
  }

  lemma BodyInside(p: seq<byte>, s: seq<byte>, n: nat)
    requires n <= |p|
    ensures (p + s)[..n] == p[..n] && (p + s)[n..] == p[n..] + s
  {
  }

  /** Without an overrun the split ignores what lies behind the received bytes. */
  lemma {:induction false} StaleIgnored(p: seq<byte>, s: seq<byte>, t: seq<byte>, count: nat, m: int)
    requires |s| == |t| && m != 0 && !Overruns(p, |s|, count, m)
    ensures SplitPacket(p + s, |p|, count, m) == SplitPacket(p + t, |p|, count, m)
    decreases |p|
  {
    hide ReadMessage, Overruns;
    if |p| >= NLMSG_HDRLEN {
      var next := FirstMessage(p, s, t, count, m);
      if next >= 0 {
        StaleIgnored(p[next..], s, t, count + 1, m);
      }
    }
  }

  /** With an overrun, zeros and ones behind the received bytes are told apart by what is sent on. */
  lemma {:induction false} StaleLeaks(p: seq<byte>, k: nat, count: nat, m: int)
    requires m != 0 && Overruns(p, k, count, m)
    ensures SplitPacket(p + Zeros(k), |p|, count, m).actions != SplitPacket(p + seq(k, i => 1), |p|, count, m).actions
    decreases |p|
  {
    var s: seq<byte>, t: seq<byte> := Zeros(k), seq(k, i => 1);
    assert |p| >= NLMSG_HDRLEN;
    hide ReadMessage, Overruns;
    var next := FirstMessage(p, s, t, count, m);
    var a, b := ReadMessage(p + s, |p|, count, m), ReadMessage(p + t, |p|, count, m);
    if next >= 0 {
      StaleLeaks(p[next..], k, count + 1, m);
      var x, y := SplitPacket(a.rest, a.remaining, count + 1, m).actions,
          SplitPacket(b.rest, a.remaining, count + 1, m).actions;
      PrefixKeepsDifference(a.actions, x, y);
    } else {
      assert SplitPacket(p + s, |p|, count, m).actions == a.actions;
      assert SplitPacket(p + t, |p|, count, m).actions == b.actions;
      var n := |a.actions[0].body|;
      assert a.actions[0].body[n - 1] == 0 && b.actions[0].body[n - 1] == 1;
      assert a.actions[0] != b.actions[0];
    }
  }

  lemma PrefixKeepsDifference(a: seq<Action>, x: seq<Action>, y: seq<Action>)
    requires x != y
    ensures a + x != a + y
  {
    assert (a + x)[|a|..] == x && (a + y)[|a|..] == y;
  }

  /** Stale-buffer independence holds exactly for the packets in which no sampled body overruns the received bytes. */
  lemma StaleIndependentIff(p: seq<byte>, k: nat, m: int)
    requires m != 0
    ensures !Overruns(p, k, 0, m) <==>
      forall s: seq<byte>, t: seq<byte> :: |s| == |t| == k ==>
        SplitPacket(p + s, |p|, 0, m) == SplitPacket(p + t, |p|, 0, m)
  {
    if Overruns(p, k, 0, m) {
      StaleLeaks(p, k, 0, m);
    } else {
      forall s: seq<byte>, t: seq<byte> | |s| == |t| == k
        ensures SplitPacket(p + s, |p|, 0, m) == SplitPacket(p + t, |p|, 0, m)
      {
        StaleIgnored(p, s, t, 0, m);
      }
    }
  }

  /** Well-formed packets never overrun: two buffers holding the same packet are split alike. */
  lemma WellFormedIgnoresStale(buffer: seq<byte>, other: seq<byte>, p: Packet, m: int)
    requires WellFormedPacket(p) && m != 0 && |EncodePacket(p)| <= |buffer| && |EncodePacket(p)| <= |other|
    ensures SplitReceived(buffer, EncodePacket(p), m) == SplitReceived(other, EncodePacket(p), m)
  {
    PacketFraming(buffer, p, m);
    PacketFraming(other, p, m);
    SameRemaining(buffer, p, m);
    SameRemaining(other, p, m);
  }

  lemma SameRemaining(buffer: seq<byte>, p: Packet, m: int)
    requires WellFormedPacket(p) && m != 0 && |EncodePacket(p)| <= |buffer|
    ensures SplitReceived(buffer, EncodePacket(p), m).remaining == if p.dones == [] then 0 else |p.dones[0].tail|
  {
    hide *;
    FramingFrom(p, buffer[|EncodePacket(p)|..], 0, m);
    SplitInBuffer(buffer, EncodePacket(p), m);
  }

  /** A datagram is split with the buffer's leftovers behind it; of one that is too long only the front is there. */
  lemma SplitInBuffer(buffer: seq<byte>, bytes: seq<byte>, m: int)
    ensures SplitReceived(buffer, bytes, m)
         == if |bytes| <= |buffer| then SplitPacket(bytes + buffer[|bytes|..], |bytes|, 0, m)
            else SplitPacket(bytes[..|buffer|], |buffer|, 0, m)
  {
    hide SplitPacket;
    if |bytes| <= |buffer| {
      assert Overwritten(buffer, bytes) == bytes + buffer[|bytes|..];
    } else {
      assert Overwritten(buffer, bytes) == bytes[..|buffer|];
    }
  }
}
