/** The kernel structs of pkg/inetdiag: their layouts, sizes and images. */
module InetDiag {
  import opened Bytes

  const MEM_INFO: Layout := Repeat(4, 4)
  const TCP_INFO_415: Layout := Repeat(8, 1) + Repeat(24, 4) + Repeat(4, 8) + Repeat(6, 4) + Repeat(4, 8)
  const TCP_INFO_54_EXTRA: Layout := Repeat(2, 4) + Repeat(2, 8) + Repeat(4, 4)
  const TCP_INFO_54: Layout := TCP_INFO_415 + TCP_INFO_54_EXTRA
  const SK_MEM_INFO: Layout := Repeat(9, 4)
  const BBR_INFO: Layout := Repeat(5, 4)
  const NLMSG_HDR: Layout := Repeat(1, 4) + Repeat(2, 2) + Repeat(2, 4)
  const NLATTR: Layout := Repeat(2, 2)
  const SOCKET_HEAD: Layout := Repeat(4, 1) + Repeat(2, 2)
  const SOCKET_TAIL: Layout := Repeat(1, 4) + Repeat(1, 8) + Repeat(5, 4)

  const NLMSG_HDRLEN: nat := 16
  const INET_DIAG_MSG_LEN: nat := 72

  lemma LayoutSizes()
    ensures Size(NLMSG_HDR) == NLMSG_HDRLEN && Size(NLATTR) == 4
    ensures Size(MEM_INFO) == 16 && Size(SK_MEM_INFO) == 36 && Size(BBR_INFO) == 20
    ensures Size(TCP_INFO_415) == 192 && |TCP_INFO_415| == 46
    ensures Size(TCP_INFO_54) == 232 && Size(TCP_INFO_54_EXTRA) == 40
    ensures Size(SOCKET_HEAD) == 8 && Size(SOCKET_TAIL) == 32
    ensures Size(SOCKET_HEAD) + 32 + Size(SOCKET_TAIL) == INET_DIAG_MSG_LEN
  {
    SizeOfRepeat(4, 4); SizeOfRepeat(9, 4); SizeOfRepeat(5, 4);
    SizeOfRepeat(8, 1); SizeOfRepeat(24, 4); SizeOfRepeat(4, 8); SizeOfRepeat(6, 4);
    SizeOfRepeat(2, 4); SizeOfRepeat(2, 8); SizeOfRepeat(1, 4); SizeOfRepeat(2, 2); SizeOfRepeat(4, 1);
    SizeOfRepeat(1, 8);
    SizeOfConcat(Repeat(8, 1), Repeat(24, 4));
    SizeOfConcat(Repeat(8, 1) + Repeat(24, 4), Repeat(4, 8));
    SizeOfConcat(Repeat(8, 1) + Repeat(24, 4) + Repeat(4, 8), Repeat(6, 4));
    SizeOfConcat(Repeat(8, 1) + Repeat(24, 4) + Repeat(4, 8) + Repeat(6, 4), Repeat(4, 8));
    SizeOfConcat(Repeat(2, 4), Repeat(2, 8));
    SizeOfConcat(Repeat(2, 4) + Repeat(2, 8), Repeat(4, 4));
    SizeOfConcat(TCP_INFO_415, TCP_INFO_54_EXTRA);
    SizeOfConcat(Repeat(1, 4), Repeat(2, 2));
    SizeOfConcat(Repeat(1, 4) + Repeat(2, 2), Repeat(2, 4));
    SizeOfConcat(Repeat(4, 1), Repeat(2, 2));
    SizeOfConcat(Repeat(1, 4), Repeat(1, 8));
    SizeOfConcat(Repeat(1, 4) + Repeat(1, 8), Repeat(5, 4));
  }

  datatype NlMsgHdr = NlMsgHdr(length: nat, msgType: nat, flags: nat, sequence: nat, pid: nat)

  function DecodeNlMsgHdr(b: seq<byte>): NlMsgHdr
    requires |b| == NLMSG_HDRLEN
  {
    LayoutSizes();
    var v := Decode(NLMSG_HDR, b);
    NlMsgHdr(v[0], v[1], v[2], v[3], v[4])
  }

  predicate FitsNlMsgHdr(h: NlMsgHdr) {
    h.length < 0x1_0000_0000 && h.msgType < 0x1_0000 && h.flags < 0x1_0000 && h.sequence < 0x1_0000_0000
        && h.pid < 0x1_0000_0000
  }

  function EncodeNlMsgHdr(h: NlMsgHdr): (b: seq<byte>)
    ensures |b| == NLMSG_HDRLEN
  {
    LayoutSizes();
    Encode(NLMSG_HDR, [h.length, h.msgType, h.flags, h.sequence, h.pid])
  }

  lemma Powers()
    ensures Pow256(1) == 0x100 && Pow256(2) == 0x1_0000 && Pow256(4) == 0x1_0000_0000
  {
    assert Pow256(3) == 256 * Pow256(2);
  }

  lemma NlMsgHdrRoundTrip(h: NlMsgHdr)
    requires FitsNlMsgHdr(h)
    ensures DecodeNlMsgHdr(EncodeNlMsgHdr(h)) == h
  {
    Powers();
    LayoutSizes();
    DecodeOfEncode(NLMSG_HDR, [h.length, h.msgType, h.flags, h.sequence, h.pid]);
  }

  datatype Nlattr = Nlattr(nlaLen: nat, nlaType: nat)

  function DecodeNlattr(b: seq<byte>): (h: Nlattr)
    requires |b| == 4
    ensures h.nlaLen < 0x1_0000 && h.nlaType < 0x1_0000
  {
    LayoutSizes();
    Powers();
    var v := Decode(NLATTR, b);
    assert v[0] < Pow256(NLATTR[0]) && v[1] < Pow256(NLATTR[1]);
    Nlattr(v[0], v[1])
  }

  function EncodeNlattr(h: Nlattr): (b: seq<byte>)
    ensures |b| == 4
  {
    LayoutSizes();
    Encode(NLATTR, [h.nlaLen, h.nlaType])
  }

  lemma NlattrRoundTrip(h: Nlattr)
    requires h.nlaLen < 0x1_0000 && h.nlaType < 0x1_0000
    ensures DecodeNlattr(EncodeNlattr(h)) == h
  {
    Powers();
    LayoutSizes();
    DecodeOfEncode(NLATTR, [h.nlaLen, h.nlaType]);
  }

  /** inet_diag_msg. Ports are kept as the integer a little-endian read gives. */
  datatype InetDiagMsg = InetDiagMsg(
    family: nat, state: nat, timer: nat, retrans: nat,
    sourcePort: nat, destinationPort: nat,
    source: seq<byte>, destination: seq<byte>,
    iface: nat, cookie: nat, expires: nat, rqueue: nat, wqueue: nat, uid: nat, inode: nat)

  function Head(m: InetDiagMsg): (v: seq<nat>)
    ensures |v| == 6
  {
    [m.family, m.state, m.timer, m.retrans, m.sourcePort, m.destinationPort]
  }

  function Tail(m: InetDiagMsg): (v: seq<nat>)
    ensures |v| == 7
  {
    [m.iface, m.cookie, m.expires, m.rqueue, m.wqueue, m.uid, m.inode]
  }

  predicate FitsInetDiagMsg(m: InetDiagMsg) {
    Fits(SOCKET_HEAD, Head(m)) && Fits(SOCKET_TAIL, Tail(m)) && |m.source| == 16 && |m.destination| == 16
  }

  const ZERO_INET_DIAG_MSG: InetDiagMsg :=
    InetDiagMsg(0, 0, 0, 0, 0, 0, Zeros(16), Zeros(16), 0, 0, 0, 0, 0, 0, 0)

  function DecodeInetDiagMsg(b: seq<byte>): (m: InetDiagMsg)
    requires |b| == INET_DIAG_MSG_LEN
    ensures FitsInetDiagMsg(m)
  {
    LayoutSizes();
    var h, t := Decode(SOCKET_HEAD, b[..8]), Decode(SOCKET_TAIL, b[40..]);
    var m := InetDiagMsg(h[0], h[1], h[2], h[3], h[4], h[5], b[8..24], b[24..40],
                         t[0], t[1], t[2], t[3], t[4], t[5], t[6]);
    assert Head(m) == h && Tail(m) == t;
    m
  }

  function EncodeInetDiagMsg(m: InetDiagMsg): (b: seq<byte>)
    requires |m.source| == 16 && |m.destination| == 16
    ensures |b| == INET_DIAG_MSG_LEN
  {
    LayoutSizes();
    Encode(SOCKET_HEAD, Head(m)) + m.source + m.destination + Encode(SOCKET_TAIL, Tail(m))
  }

  lemma InetDiagMsgRoundTrip(m: InetDiagMsg)
    requires FitsInetDiagMsg(m)
    ensures DecodeInetDiagMsg(EncodeInetDiagMsg(m)) == m
  {
    LayoutSizes();
    var b := EncodeInetDiagMsg(m);
    assert b[..8] == Encode(SOCKET_HEAD, Head(m));
    assert b[8..24] == m.source;
    assert b[24..40] == m.destination;
    assert b[40..] == Encode(SOCKET_TAIL, Tail(m));
    DecodeOfEncode(SOCKET_HEAD, Head(m));
    DecodeOfEncode(SOCKET_TAIL, Tail(m));
  }
}
