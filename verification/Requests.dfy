/** The dump request: BuildNetlinkSockDiagRequest, and the poller's in-place patching of its sequence number. */
module Requests {
  import opened Misc
  import opened Bytes
  import opened InetDiag

  const SOCK_DIAG_BY_FAMILY: nat := 20
  const DUMP_REQUEST_FLAGS: nat := 0x301
  const IPPROTO_TCP: byte := 6
  const ESTABLISHED: nat := 2
  const REQUEST_LEN: nat := 24

  /** The fields of nlmsghdr and inet_diag_req_v2 that a request sets. */
  datatype Request = Request(hdr: NlMsgHdr, family: byte, protocol: byte, ext: byte, pad: byte, states: nat)

  function RequestFor(family: byte, length: nat, sequence: nat, pid: nat, ext: byte, pad: byte): Request {
    Request(NlMsgHdr(length, SOCK_DIAG_BY_FAMILY, DUMP_REQUEST_FLAGS, sequence, pid), family, IPPROTO_TCP, ext, pad,
            ESTABLISHED)
  }

  predicate FitsRequest(r: Request) {
    FitsNlMsgHdr(r.hdr) && r.states < 0x1_0000_0000
  }

  function EncodeRequest(r: Request): (b: seq<byte>)
    ensures |b| == REQUEST_LEN
  {
    EncodeNlMsgHdr(r.hdr) + [r.family, r.protocol, r.ext, r.pad] + LittleEndian(r.states, 4)
  }

  /** How the kernel reads a request. */
  function ParseRequest(b: seq<byte>): Request
    requires |b| >= REQUEST_LEN
  {
    Request(DecodeNlMsgHdr(b[..16]), b[16], b[17], b[18], b[19], Value(b[20..24]))
  }

  lemma ParseOfEncode(r: Request, tail: seq<byte>)
    requires FitsRequest(r)
    ensures ParseRequest(EncodeRequest(r) + tail) == r
  {
    var b := EncodeRequest(r) + tail;
    NlMsgHdrRoundTrip(r.hdr);
    Powers();
    ValueOfLittleEndian(r.states, 4);
    hide EncodeNlMsgHdr, DecodeNlMsgHdr, LittleEndian, Value;
    assert b[..16] == EncodeNlMsgHdr(r.hdr);
    assert b[20..24] == LittleEndian(r.states, 4);
  }

  /** b with the bytes from offset i on replaced by v. */
  function Patched(b: seq<byte>, i: nat, v: seq<byte>): (r: seq<byte>)
    requires i + |v| <= |b|
    ensures |r| == |b|
  {
    b[..i] + v + b[i + |v|..]
  }

  lemma PatchOne(b: seq<byte>, i: nat, v: seq<byte>, k: nat)
    requires i + |v| <= |b| && k < |v|
    ensures Patched(b, i, v[..k + 1]) == Patched(b, i, v[..k])[i + k := v[k]]
  {
  }

  /** binary.LittleEndian.PutUint16 / PutUint32, and the single-byte stores through unsafe pointers. */
  method Put(a: array<byte>, i: nat, v: nat, width: nat)
    requires i + width <= a.Length
    modifies a
    ensures a[..] == Patched(old(a[..]), i, LittleEndian(v, width))
  {
    var image := LittleEndian(v, width);
    hide LittleEndian;
    ghost var before := a[..];
    for k := 0 to width
      invariant a[..] == Patched(before, i, image[..k])
    {
      PatchOne(before, i, image, k);
      a[i + k] := image[k];
    }
    assert image[..width] == image;
  }

  /** The image once a prefix of it has been stored. */
  function Written(b: seq<byte>, front: seq<byte>): seq<byte>
    requires |front| <= |b|
  {
    front + b[|front|..]
  }

  lemma NextStore(b: seq<byte>, front: seq<byte>, v: seq<byte>)
    requires |front| + |v| <= |b|
    ensures Patched(Written(b, front), |front|, v) == Written(b, front + v)
  {
  }

  /** A store right behind everything stored so far. */
  method PutNext(a: array<byte>, i: nat, v: nat, width: nat, ghost b: seq<byte>,
                 ghost front: seq<byte>) returns (ghost wider: seq<byte>)
    requires i + width <= a.Length == |b| && |front| == i && a[..] == Written(b, front)
    modifies a
    ensures wider == front + LittleEndian(v, width) && a[..] == Written(b, wider)
  {
    NextStore(b, front, LittleEndian(v, width));
    Put(a, i, v, width);
    wider := front + LittleEndian(v, width);
  }

  /** The request byte by byte: nlmsghdr in bytes 0 to 15, inet_diag_req_v2 from byte 16 on, zeros behind. */
  ghost predicate SpellsRequest(b: seq<byte>, family: byte, length: nat, sequence: nat, pid: nat, ext: byte,
                                pad: byte) {
    && |b| >= 24
    && Value(b[0..4]) == length % 0x1_0000_0000 && Value(b[4..6]) == 20 && Value(b[6..8]) == 0x301
    && Value(b[8..12]) == sequence % 0x1_0000_0000 && Value(b[12..16]) == pid % 0x1_0000_0000
    && b[16] == family && b[17] == 6 && b[18] == ext && b[19] == pad && Value(b[20..24]) == 2
    && forall i :: 24 <= i < |b| ==> b[i] == 0
  }

  lemma EncodingSpells(family: byte, length: nat, sequence: nat, pid: nat, ext: byte, pad: byte, n: nat)
    ensures SpellsRequest(EncodeRequest(RequestFor(family, length, sequence, pid, ext, pad)) + Zeros(n),
                          family, length, sequence, pid, ext, pad)
  {
    var r := RequestFor(family, length, sequence, pid, ext, pad);
    var b := EncodeRequest(r) + Zeros(n);
    Powers();
    ValueTruncates(length, 4); ValueTruncates(20, 2); ValueTruncates(0x301, 2); ValueTruncates(sequence, 4);
    ValueTruncates(pid, 4); ValueTruncates(2, 4);
    RequestSlices(r, Zeros(n));
    hide EncodeRequest, LittleEndian, Value, Pow256;
  }

  lemma RequestSlices(r: Request, tail: seq<byte>)
    ensures var b := EncodeRequest(r) + tail;
            && b[0..4] == LittleEndian(r.hdr.length, 4) && b[4..6] == LittleEndian(r.hdr.msgType, 2)
            && b[6..8] == LittleEndian(r.hdr.flags, 2) && b[8..12] == LittleEndian(r.hdr.sequence, 4)
            && b[12..16] == LittleEndian(r.hdr.pid, 4) && b[16] == r.family && b[17] == r.protocol
            && b[18] == r.ext && b[19] == r.pad && b[20..24] == LittleEndian(r.states, 4)
  {
    HeaderStores(r.hdr);
    hide LittleEndian, EncodeNlMsgHdr;
  }

  method BuildNetlinkSockDiagRequest(addressFamily: byte, makeSize: nat, nlmsgLen: nat, nlmsgSeq: nat, nlmsgPid: nat,
                                     ext: byte, pad: byte)
    returns (packetBytes: array<byte>)
    requires makeSize >= REQUEST_LEN
    ensures fresh(packetBytes)
    ensures packetBytes[..] == EncodeRequest(RequestFor(addressFamily, nlmsgLen, nlmsgSeq, nlmsgPid, ext, pad))
            + Zeros(makeSize - REQUEST_LEN)
    ensures packetBytes.Length == makeSize
    ensures SpellsRequest(packetBytes[..], addressFamily, nlmsgLen, nlmsgSeq, nlmsgPid, ext, pad)
  {
    EncodingSpells(addressFamily, nlmsgLen, nlmsgSeq, nlmsgPid, ext, pad, makeSize - REQUEST_LEN);
    packetBytes := new byte[makeSize](i => 0);
    ghost var b := packetBytes[..];
    ghost var r := RequestFor(addressFamily, nlmsgLen, nlmsgSeq, nlmsgPid, ext, pad);
    assert b == Zeros(makeSize) && b == Written(b, []);
    StoresSpellRequest(r, b);
    hide LittleEndian, Written, Zeros, EncodeRequest, SpellsRequest;
    ghost var f := PutNext(packetBytes, 0, nlmsgLen, 4, b, []);
    f := PutNext(packetBytes, 4, SOCK_DIAG_BY_FAMILY, 2, b, f);
    f := PutNext(packetBytes, 6, DUMP_REQUEST_FLAGS, 2, b, f);
    f := PutNext(packetBytes, 8, nlmsgSeq, 4, b, f);
    f := PutNext(packetBytes, 12, nlmsgPid, 4, b, f);
    f := PutNext(packetBytes, 16, addressFamily, 1, b, f);
    f := PutNext(packetBytes, 17, IPPROTO_TCP, 1, b, f);
    f := PutNext(packetBytes, 18, ext, 1, b, f);
    f := PutNext(packetBytes, 19, pad, 1, b, f);
    f := PutNext(packetBytes, 20, ESTABLISHED, 4, b, f);
  }

  /** The ten stores, in order. */
  function Stores(r: Request): seq<byte> {
    [] + LittleEndian(r.hdr.length, 4) + LittleEndian(r.hdr.msgType, 2) + LittleEndian(r.hdr.flags, 2)
    + LittleEndian(r.hdr.sequence, 4) + LittleEndian(r.hdr.pid, 4)
    + LittleEndian(r.family, 1) + LittleEndian(r.protocol, 1) + LittleEndian(r.ext, 1) + LittleEndian(r.pad, 1)
    + LittleEndian(r.states, 4)
  }

  lemma StoresSpellRequest(r: Request, b: seq<byte>)
    requires |b| >= REQUEST_LEN && b == Zeros(|b|)
    ensures Stores(r) == EncodeRequest(r)
    ensures Written(b, Stores(r)) == EncodeRequest(r) + Zeros(|b| - REQUEST_LEN)
  {
    HeaderStores(r.hdr);
    OneByte(r.family); OneByte(r.protocol); OneByte(r.ext); OneByte(r.pad);
    hide LittleEndian, EncodeNlMsgHdr;
    assert Stores(r) == EncodeRequest(r);
    assert b[REQUEST_LEN..] == Zeros(|b| - REQUEST_LEN);
  }

  lemma OneByte(b: byte)
    ensures LittleEndian(b, 1) == [b]
  {
    assert LittleEndian(b, 1) == [b % 256] + LittleEndian(b / 256, 0);
  }

  lemma HeaderStores(h: NlMsgHdr)
    ensures EncodeNlMsgHdr(h)
      == LittleEndian(h.length, 4) + LittleEndian(h.msgType, 2) + LittleEndian(h.flags, 2)
         + LittleEndian(h.sequence, 4) + LittleEndian(h.pid, 4)
  {
    var v := [h.length, h.msgType, h.flags, h.sequence, h.pid];
    LayoutSizes();
    var l := NLMSG_HDR;
    assert |l| == 5 && l[0] == 4 && l[1] == 2 && l[2] == 2 && l[3] == 4 && l[4] == 4;
    hide *;
    EncodeFive(l, v);
    HeaderIsEncode(h);
  }

  lemma HeaderIsEncode(h: NlMsgHdr)
    ensures |NLMSG_HDR| == 5
    ensures EncodeNlMsgHdr(h) == Encode(NLMSG_HDR, [h.length, h.msgType, h.flags, h.sequence, h.pid])
  {
  }

  lemma EncodeFive(l: Layout, v: seq<nat>)
    requires |l| == |v| == 5
    ensures Encode(l, v)
      == LittleEndian(v[0], l[0]) + LittleEndian(v[1], l[1]) + LittleEndian(v[2], l[2])
         + LittleEndian(v[3], l[3]) + LittleEndian(v[4], l[4])
  {
    NothingToEncode(l[5..], v[5..]);
    hide *;
    var e4 := EncodeFrom(l, v, 4);
    var e3 := EncodeFrom(l, v, 3);
    var e2 := EncodeFrom(l, v, 2);
    var e1 := EncodeFrom(l, v, 1);
    var e0 := EncodeFrom(l, v, 0);
    Flatten(LittleEndian(v[0], l[0]), LittleEndian(v[1], l[1]), LittleEndian(v[2], l[2]), LittleEndian(v[3], l[3]),
            LittleEndian(v[4], l[4]));
    assert l[0..] == l && v[0..] == v;
  }

  lemma NothingToEncode(l: Layout, v: seq<nat>)
    requires l == [] && v == []
    ensures Encode(l, v) == []
  {
  }

  lemma Flatten(a: seq<byte>, b: seq<byte>, c: seq<byte>, d: seq<byte>, e: seq<byte>)
    ensures a + (b + (c + (d + (e + [])))) == a + b + c + d + e
  {
  }

  lemma EncodeFrom(l: Layout, v: seq<nat>, i: nat) returns (b: seq<byte>)
    requires i < |l| == |v|
    ensures b == Encode(l[i..], v[i..]) == LittleEndian(v[i], l[i]) + Encode(l[i + 1..], v[i + 1..])
  {
    b := Encode(l[i..], v[i..]);
    assert l[i..][1..] == l[i + 1..] && v[i..][1..] == v[i + 1..];
  }

  // ---- The request stream ----

  /** A Go int written into a uint32. */
  function Truncated(v: int): (u: nat)
    ensures u < 0x1_0000_0000
  {
    v % 0x1_0000_0000
  }

  /** The request of poll k: the one built at the start, with the sequence number overwritten. */
  function RequestOfPoll(family: byte, nlmsgSeq: int, k: nat): (r: Request)
    ensures FitsRequest(r)
  {
    RequestFor(family, 72, Truncated(nlmsgSeq + k), 0, 0xFF, 0)
  }

  /** Polls made when the ticker grants `ticks` of them. */
  function Polls(ticks: nat, maxLoops: int): nat {
    if maxLoops == 0 then ticks else if maxLoops < 0 then 0 else if ticks <= maxLoops + 1 then ticks else maxLoops + 1
  }

  /** The poll loop's view of the request: build once, patch bytes 8 to 12 in place, send. */
  method SendRequests(family: byte, nlmsgSeq: int, maxLoops: int, ticks: nat) returns (sent: seq<seq<byte>>)
    ensures |sent| == Polls(ticks, maxLoops)
    ensures forall k :: 0 <= k < |sent| ==>
      && sent[k] == EncodeRequest(RequestOfPoll(family, nlmsgSeq, k)) + Zeros(104)
      && SpellsRequest(sent[k], family, 72, (nlmsgSeq + k) % 0x1_0000_0000, 0, 0xFF, 0) && |sent[k]| == 128
  {
    var netlinkRequest := BuildNetlinkSockDiagRequest(family, 128, 72, Truncated(nlmsgSeq), 0, 0xFF, 0);
    ghost var last := RequestOfPoll(family, nlmsgSeq, 0);
    sent := [];
    var pollingLoops := 0;
    hide EncodeRequest, LittleEndian, Truncated, SpellsRequest;
    while MaxLoopsOrForEver(pollingLoops, maxLoops) && pollingLoops < ticks
      invariant |sent| == pollingLoops <= Polls(ticks, maxLoops)
      invariant last.(hdr := last.hdr.(sequence := 0)) == RequestFor(family, 72, 0, 0, 0xFF, 0)
      invariant fresh(netlinkRequest) && netlinkRequest[..] == EncodeRequest(last) + Zeros(104)
      invariant forall k :: 0 <= k < |sent| ==>
        sent[k] == EncodeRequest(RequestOfPoll(family, nlmsgSeq, k)) + Zeros(104)
    {
      PatchSequence(last, Truncated(nlmsgSeq + pollingLoops), Zeros(104));
      Put(netlinkRequest, 8, Truncated(nlmsgSeq + pollingLoops), 4);
      last := RequestOfPoll(family, nlmsgSeq, pollingLoops);
      sent := sent + [netlinkRequest[..]];
      pollingLoops := pollingLoops + 1;
    }
    forall k | 0 <= k < |sent| ensures SpellsRequest(sent[k], family, 72, (nlmsgSeq + k) % 0x1_0000_0000, 0, 0xFF, 0) {
      PollSpells(family, nlmsgSeq, k);
    }
  }

  lemma PollSpells(family: byte, nlmsgSeq: int, k: nat)
    ensures SpellsRequest(EncodeRequest(RequestOfPoll(family, nlmsgSeq, k)) + Zeros(104), family, 72,
                          (nlmsgSeq + k) % 0x1_0000_0000, 0, 0xFF, 0)
  {
    hide SpellsRequest, EncodeRequest;
    EncodingSpells(family, 72, Truncated(nlmsgSeq + k), 0, 0xFF, 0, 104);
  }

  lemma PatchSequence(r: Request, s: nat, tail: seq<byte>)
    ensures Patched(EncodeRequest(r) + tail, 8, LittleEndian(s, 4)) == EncodeRequest(r.(hdr := r.hdr.(sequence := s)))
            + tail
  {
    var q := r.(hdr := r.hdr.(sequence := s));
    HeaderStores(r.hdr);
    HeaderStores(q.hdr);
    hide LittleEndian, EncodeNlMsgHdr;
    var front := LittleEndian(r.hdr.length, 4) + LittleEndian(r.hdr.msgType, 2) + LittleEndian(r.hdr.flags, 2);
    var back := LittleEndian(r.hdr.pid, 4) + [r.family, r.protocol, r.ext, r.pad] + LittleEndian(r.states, 4) + tail;
    assert EncodeRequest(r) + tail == front + LittleEndian(r.hdr.sequence, 4) + back;
    assert EncodeRequest(q) + tail == front + LittleEndian(s, 4) + back;
  }

  /** The kernel reads request k as built, with sequence number nlmsgSeq + k modulo 2^32. */
  lemma RequestParses(family: byte, nlmsgSeq: int, k: nat)
    ensures ParseRequest(EncodeRequest(RequestOfPoll(family, nlmsgSeq, k)) + Zeros(104))
         == Request(NlMsgHdr(72, 20, 0x301, (nlmsgSeq + k) % 0x1_0000_0000, 0), family, 6, 0xFF, 0, 2)
  {
    ParseOfEncode(RequestOfPoll(family, nlmsgSeq, k), Zeros(104));
  }

  /** Two polls have the same sequence number exactly when their distance is a multiple of 2^32. */
  lemma SequencesCollideIff(nlmsgSeq: int, j: nat, k: nat)
    requires j <= k
    ensures Truncated(nlmsgSeq + j) == Truncated(nlmsgSeq + k) <==> (k - j) % 0x1_0000_0000 == 0
  {
    var d := 0x1_0000_0000;
    var a, b := nlmsgSeq + j, nlmsgSeq + k;
    assert a == d * (a / d) + a % d && b == d * (b / d) + b % d;
    assert k - j == d * (b / d - a / d) + (b % d - a % d);
  }

  /** Over a whole run with a limit, the kernel can tell all requests apart by sequence number exactly when the limit is
      below 2^32; were the guard `<`, a limit of 2^32 itself would still do. */
  lemma LimitedRunDistinctIff(family: byte, nlmsgSeq: int, ticks: nat, maxLoops: int)
    requires maxLoops > 0 && ticks > maxLoops
    ensures (forall j, k :: 0 <= j < k < Polls(ticks, maxLoops) ==>
               SequenceSent(family, nlmsgSeq, j) != SequenceSent(family, nlmsgSeq, k))
            <==> maxLoops < 0x1_0000_0000
  {
    hide ParseRequest, EncodeRequest, RequestOfPoll, SequenceSent;
    var d := 0x1_0000_0000;
    if maxLoops < d {
      forall j, k | 0 <= j < k < Polls(ticks, maxLoops)
        ensures SequenceSent(family, nlmsgSeq, j) != SequenceSent(family, nlmsgSeq, k)
      {
        SequencesCollideIff(nlmsgSeq, j, k);
        SequenceIs(family, nlmsgSeq, j);
        SequenceIs(family, nlmsgSeq, k);
      }
    } else {
      SequencesCollideIff(nlmsgSeq, 0, d);
      SequenceIs(family, nlmsgSeq, 0);
      SequenceIs(family, nlmsgSeq, d);
      assert 0 < d < Polls(ticks, maxLoops);
    }
  }

  /** The sequence number the kernel reads in request k. */
  function SequenceSent(family: byte, nlmsgSeq: int, k: nat): nat {
    ParseRequest(EncodeRequest(RequestOfPoll(family, nlmsgSeq, k)) + Zeros(104)).hdr.sequence
  }

  lemma SequenceIs(family: byte, nlmsgSeq: int, k: nat)
    ensures SequenceSent(family, nlmsgSeq, k) == Truncated(nlmsgSeq + k)
  {
    RequestParses(family, nlmsgSeq, k);
    hide ParseRequest, EncodeRequest, RequestOfPoll;
  }
}
