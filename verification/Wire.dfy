/** The kernel structs byte by byte: which bytes of an image each field is. */
module Wire {
  import opened Bytes
  import opened InetDiag

  // ---- Numbers ----

  lemma OneByteValue(b: seq<byte>)
    requires |b| == 1
    ensures Value(b) == b[0]
  {
    assert b[1..] == [];
  }

  lemma TwoByteValue(b: seq<byte>)
    requires |b| == 2
    ensures Value(b) == b[0] as nat + 256 * b[1] as nat
  {
    OneByteValue(b[1..]);
  }

  lemma FourByteValue(b: seq<byte>)
    requires |b| == 4
    ensures Value(b) == b[0] as nat + 0x100 * b[1] as nat + 0x1_0000 * b[2] as nat + 0x100_0000 * b[3] as nat
  {
    TwoByteValue(b[2..]);
    var tail := b[1..];
    assert Value(tail) == tail[0] as nat + 256 * Value(tail[1..]);
    assert tail[1..] == b[2..];
  }

  // ---- Fields of a layout ----

  lemma {:induction false} FieldAt(l: Layout, b: seq<byte>, i: nat)
    requires |b| == Size(l) && i < |l|
    ensures Size(l[..i]) + l[i] <= |b| && Decode(l, b)[i] == Value(b[Size(l[..i])..Size(l[..i]) + l[i]])
  {
    hide *;
    if i == 0 {
      FieldFirst(l, b);
    } else {
      FieldLater(l, b, i);
      FieldAt(l[1..], b[l[0]..], i - 1);
      var k := Size(l[1..][..i - 1]);
      assert b[l[0]..][k..k + l[i]] == b[l[0] + k..l[0] + k + l[i]];
    }
  }

  lemma FieldFirst(l: Layout, b: seq<byte>)
    requires |b| == Size(l) && l != []
    ensures Size(l[..0]) == 0 && l[0] <= |b| && Decode(l, b)[0] == Value(b[0..l[0]])
  {
  }

  lemma FieldLater(l: Layout, b: seq<byte>, i: nat)
    requires |b| == Size(l) && 0 < i < |l|
    ensures l[0] <= |b| && |b[l[0]..]| == Size(l[1..]) && l[1..][i - 1] == l[i]
    ensures Size(l[..i]) == l[0] + Size(l[1..][..i - 1])
    ensures Decode(l, b)[i] == Decode(l[1..], b[l[0]..])[i - 1]
  {
    assert l[..i][1..] == l[1..][..i - 1];
  }

  /** The k-th of n fields of width w behind the fields a. */
  lemma FieldOfRun(l: Layout, a: Layout, n: nat, w: nat, rest: Layout, b: seq<byte>, k: nat, from: nat)
    requires l == a + Repeat(n, w) + rest && |b| == Size(l) && k < n && from == Size(a) + k * w
    ensures from + w <= |b| && |a| + k < |l| && Decode(l, b)[|a| + k] == Value(b[from..from + w])
  {
    hide *;
    RunOffset(a, w, k, from);
    FieldBehind(l, a, n, w, rest, b, k, from);
  }

  lemma RunOffset(a: Layout, w: nat, k: nat, from: nat)
    requires from == Size(a) + k * w
    ensures Size(a + Repeat(k, w)) == from
  {
    SizeOfConcat(a, Repeat(k, w));
    SizeOfRepeat(k, w);
  }

  lemma FieldBehind(l: Layout, a: Layout, n: nat, w: nat, rest: Layout, b: seq<byte>, k: nat, from: nat)
    requires l == a + Repeat(n, w) + rest && |b| == Size(l) && k < n && from == Size(a + Repeat(k, w))
    ensures from + w <= |b| && |a| + k < |l| && Decode(l, b)[|a| + k] == Value(b[from..from + w])
  {
    hide *;
    PrefixOfRun(l, a, n, w, rest, k);
    FieldAfter(l, b, |a| + k, w, from);
  }

  lemma PrefixOfRun(l: Layout, a: Layout, n: nat, w: nat, rest: Layout, k: nat)
    requires l == a + Repeat(n, w) + rest && k < n
    ensures |a| + k < |l| && l[|a| + k] == w && l[..|a| + k] == a + Repeat(k, w)
  {
  }

  lemma FieldAfter(l: Layout, b: seq<byte>, i: nat, w: nat, from: nat)
    requires |b| == Size(l) && i < |l| && l[i] == w && Size(l[..i]) == from
    ensures from + w <= |b| && Decode(l, b)[i] == Value(b[from..from + w])
  {
    hide *;
    FieldAt(l, b, i);
  }

  // ---- The structs ----

  lemma NlMsgHdrSplit()
    ensures var l, a, c, d := NLMSG_HDR, Repeat(1, 4), Repeat(2, 2), Repeat(2, 4);
            && l == [] + a + (c + d) && l == a + c + d && l == (a + c) + d + [] && |l| == 5
            && Size([]) == 0 && Size(a) == 4 && Size(a + c) == 8 && Size(l) == 16
            && |a| == 1 && |a + c| == 3
  {
    LayoutSizes();
    SizeOfRepeat(1, 4); SizeOfRepeat(2, 2);
    SizeOfConcat(Repeat(1, 4), Repeat(2, 2));
    hide Repeat;
  }

  lemma HeaderFields(b: seq<byte>)
    requires |b| == 16
    ensures Size(NLMSG_HDR) == 16 && |NLMSG_HDR| == 5
    ensures var v := Decode(NLMSG_HDR, b);
            v == [Value(b[0..4]), Value(b[4..6]), Value(b[6..8]), Value(b[8..12]), Value(b[12..16])]
  {
    NlMsgHdrSplit();
    hide *;
    var l := NLMSG_HDR;
    FieldOfRun(l, [], 1, 4, Repeat(2, 2) + Repeat(2, 4), b, 0, 0);
    FieldOfRun(l, Repeat(1, 4), 2, 2, Repeat(2, 4), b, 0, 4);
    FieldOfRun(l, Repeat(1, 4), 2, 2, Repeat(2, 4), b, 1, 6);
    FieldOfRun(l, Repeat(1, 4) + Repeat(2, 2), 2, 4, [], b, 0, 8);
    FieldOfRun(l, Repeat(1, 4) + Repeat(2, 2), 2, 4, [], b, 1, 12);
    DecodeLength(l, b);
  }

  lemma DecodeLength(l: Layout, b: seq<byte>)
    requires |b| == Size(l)
    ensures |Decode(l, b)| == |l|
  {
  }

  lemma NlMsgHdrOnWire(b: seq<byte>)
    requires |b| == 16
    ensures DecodeNlMsgHdr(b)
         == NlMsgHdr(Value(b[0..4]), Value(b[4..6]), Value(b[6..8]), Value(b[8..12]), Value(b[12..16]))
  {
    HeaderFields(b);
    hide Value, Decode, Size, NLMSG_HDR;
  }

  lemma NlattrOnWire(b: seq<byte>)
    requires |b| == 4
    ensures DecodeNlattr(b) == Nlattr(b[0] as nat + 256 * b[1] as nat, b[2] as nat + 256 * b[3] as nat)
  {
    NlattrFields(b);
    TwoByteValue(b[0..2]);
    TwoByteValue(b[2..4]);
    hide Value, Decode, Size, NLATTR;
  }

  lemma NlattrFields(b: seq<byte>)
    requires |b| == 4
    ensures Size(NLATTR) == 4 && Decode(NLATTR, b) == [Value(b[0..2]), Value(b[2..4])]
  {
    NlattrSplit();
    hide *;
    FieldOfRun(NLATTR, [], 2, 2, [], b, 0, 0);
    FieldOfRun(NLATTR, [], 2, 2, [], b, 1, 2);
    DecodeLength(NLATTR, b);
  }

  lemma NlattrSplit()
    ensures NLATTR == [] + Repeat(2, 2) + [] && |NLATTR| == 2 && Size([]) == 0 && Size(NLATTR) == 4
  {
    LayoutSizes();
    hide Repeat;
  }

  lemma HeadSplit()
    ensures var l, a, c := SOCKET_HEAD, Repeat(4, 1), Repeat(2, 2);
            && l == [] + a + c && l == a + c + [] && |l| == 6 && |a| == 4
            && Size([]) == 0 && Size(a) == 4 && Size(l) == 8
  {
    LayoutSizes();
    SizeOfRepeat(4, 1);
    hide Repeat;
  }

  lemma HeadOnWire(b: seq<byte>)
    requires |b| == 8
    ensures Size(SOCKET_HEAD) == 8 && |SOCKET_HEAD| == 6
    ensures Decode(SOCKET_HEAD, b) == [b[0], b[1], b[2], b[3], Value(b[4..6]), Value(b[6..8])]
  {
    HeadSplit();
    OneByteValue(b[0..1]); OneByteValue(b[1..2]); OneByteValue(b[2..3]); OneByteValue(b[3..4]);
    hide *;
    var l := SOCKET_HEAD;
    FieldOfRun(l, [], 4, 1, Repeat(2, 2), b, 0, 0);
    FieldOfRun(l, [], 4, 1, Repeat(2, 2), b, 1, 1);
    FieldOfRun(l, [], 4, 1, Repeat(2, 2), b, 2, 2);
    FieldOfRun(l, [], 4, 1, Repeat(2, 2), b, 3, 3);
    FieldOfRun(l, Repeat(4, 1), 2, 2, [], b, 0, 4);
    FieldOfRun(l, Repeat(4, 1), 2, 2, [], b, 1, 6);
    DecodeLength(l, b);
  }

  lemma TailSplit()
    ensures var l, a, c, d := SOCKET_TAIL, Repeat(1, 4), Repeat(1, 8), Repeat(5, 4);
            && l == [] + a + (c + d) && l == a + c + d && l == (a + c) + d + [] && |l| == 7
            && Size([]) == 0 && Size(a) == 4 && Size(a + c) == 12 && Size(l) == 32
            && |a| == 1 && |a + c| == 2
  {
    LayoutSizes();
    SizeOfRepeat(1, 4); SizeOfRepeat(1, 8);
    SizeOfConcat(Repeat(1, 4), Repeat(1, 8));
    hide Repeat;
  }

  lemma TailOnWire(b: seq<byte>)
    requires |b| == 32
    ensures Size(SOCKET_TAIL) == 32 && |SOCKET_TAIL| == 7
    ensures Decode(SOCKET_TAIL, b)
         == [Value(b[0..4]), Value(b[4..12]), Value(b[12..16]), Value(b[16..20]), Value(b[20..24]), Value(b[24..28]),
             Value(b[28..32])]
  {
    TailSplit();
    hide *;
    var l := SOCKET_TAIL;
    var a := Repeat(1, 4) + Repeat(1, 8);
    FieldOfRun(l, [], 1, 4, Repeat(1, 8) + Repeat(5, 4), b, 0, 0);
    FieldOfRun(l, Repeat(1, 4), 1, 8, Repeat(5, 4), b, 0, 4);
    FieldOfRun(l, a, 5, 4, [], b, 0, 12);
    FieldOfRun(l, a, 5, 4, [], b, 1, 16);
    FieldOfRun(l, a, 5, 4, [], b, 2, 20);
    FieldOfRun(l, a, 5, 4, [], b, 3, 24);
    FieldOfRun(l, a, 5, 4, [], b, 4, 28);
    DecodeLength(l, b);
  }

  /** inet_diag_msg: the ports are read as little-endian numbers, which is not the order they are sent in. */
  lemma InetDiagMsgOnWire(b: seq<byte>)
    requires |b| == 72
    ensures DecodeInetDiagMsg(b)
         == InetDiagMsg(b[0], b[1], b[2], b[3], Value(b[4..6]), Value(b[6..8]), b[8..24], b[24..40],
                        Value(b[40..44]), Value(b[44..52]), Value(b[52..56]), Value(b[56..60]), Value(b[60..64]),
                        Value(b[64..68]), Value(b[68..72]))
  {
    HeadOnWire(b[..8]);
    TailOnWire(b[40..]);
    SocketSlices(b);
    hide Value, Decode, Size, SOCKET_HEAD, SOCKET_TAIL;
  }

  lemma SocketSlices(b: seq<byte>)
    requires |b| == 72
    ensures var h, t := b[..8], b[40..];
            && h[4..6] == b[4..6] && h[6..8] == b[6..8]
            && t[0..4] == b[40..44] && t[4..12] == b[44..52] && t[12..16] == b[52..56] && t[16..20] == b[56..60]
            && t[20..24] == b[60..64] && t[24..28] == b[64..68] && t[28..32] == b[68..72]
  {
  }

  /** TCPInfo415: eight bytes, 24 words, four double words, six words, four double words. */
  lemma TcpInfoOnWire(b: seq<byte>)
    requires |b| == 192
    ensures Size(TCP_INFO_415) == 192 && |TCP_INFO_415| == 46
    ensures var v := Decode(TCP_INFO_415, b);
            && (forall k :: 0 <= k < 8 ==> v[k] == b[k])
            && (forall k :: 0 <= k < 24 ==> v[8 + k] == Value(b[8 + 4 * k..12 + 4 * k]))
            && (forall k :: 0 <= k < 4 ==> v[32 + k] == Value(b[104 + 8 * k..112 + 8 * k]))
            && (forall k :: 0 <= k < 6 ==> v[36 + k] == Value(b[136 + 4 * k..140 + 4 * k]))
            && (forall k :: 0 <= k < 4 ==> v[42 + k] == Value(b[160 + 8 * k..168 + 8 * k]))
  {
    LayoutSizes();
    TcpInfoBytes(b);
    TcpInfoWords(b);
    TcpInfoDoubles(b);
    TcpInfoMoreWords(b);
    TcpInfoMoreDoubles(b);
    hide *;
  }

  lemma TcpInfoSplit()
    ensures var l, a, w, d, x := TCP_INFO_415, Repeat(8, 1), Repeat(24, 4), Repeat(4, 8), Repeat(6, 4);
            && l == [] + a + (w + d + x + d) && l == a + w + (d + x + d) && l == (a + w) + d + (x + d)
            && l == (a + w + d) + x + d && l == (a + w + d + x) + d + []
            && |a| == 8 && |a + w| == 32 && |a + w + d| == 36 && |a + w + d + x| == 42 && |l| == 46
    ensures var a, w, d, x := Repeat(8, 1), Repeat(24, 4), Repeat(4, 8), Repeat(6, 4);
            && Size([]) == 0 && Size(a) == 8 && Size(a + w) == 104 && Size(a + w + d) == 136
            && Size(a + w + d + x) == 160 && Size(TCP_INFO_415) == 192
  {
    TcpInfoSizes();
    hide Repeat, Size;
  }

  lemma TcpInfoSizes()
    ensures var a, w, d, x := Repeat(8, 1), Repeat(24, 4), Repeat(4, 8), Repeat(6, 4);
            && Size([]) == 0 && Size(a) == 8 && Size(a + w) == 104 && Size(a + w + d) == 136
            && Size(a + w + d + x) == 160 && Size(TCP_INFO_415) == 192
  {
    LayoutSizes();
    SizeOfRepeat(8, 1); SizeOfRepeat(24, 4); SizeOfRepeat(4, 8); SizeOfRepeat(6, 4);
    SizeOfConcat(Repeat(8, 1), Repeat(24, 4));
    SizeOfConcat(Repeat(8, 1) + Repeat(24, 4), Repeat(4, 8));
    SizeOfConcat(Repeat(8, 1) + Repeat(24, 4) + Repeat(4, 8), Repeat(6, 4));
    assert Size([]) == 0;
    hide Repeat, Size;
  }

  lemma TcpInfoBytes(b: seq<byte>)
    requires |b| == 192 && Size(TCP_INFO_415) == 192 && |TCP_INFO_415| == 46
    ensures forall k :: 0 <= k < 8 ==> Decode(TCP_INFO_415, b)[k] == b[k]
  {
    TcpInfoSplit();
    hide Value, Decode, Repeat;
    forall k | 0 <= k < 8 ensures Decode(TCP_INFO_415, b)[k] == b[k] {
      FieldOfRun(TCP_INFO_415, [], 8, 1, Repeat(24, 4) + Repeat(4, 8) + Repeat(6, 4) + Repeat(4, 8), b, k, k);
      OneByteValue(b[k..k + 1]);
    }
  }

  lemma TcpInfoWords(b: seq<byte>)
    requires |b| == 192 && Size(TCP_INFO_415) == 192 && |TCP_INFO_415| == 46
    ensures forall k :: 0 <= k < 24 ==> Decode(TCP_INFO_415, b)[8 + k] == Value(b[8 + 4 * k..12 + 4 * k])
  {
    TcpInfoSplit();
    hide Value, Decode, Repeat;
    forall k | 0 <= k < 24 ensures Decode(TCP_INFO_415, b)[8 + k] == Value(b[8 + 4 * k..12 + 4 * k]) {
      FieldOfRun(TCP_INFO_415, Repeat(8, 1), 24, 4, Repeat(4, 8) + Repeat(6, 4) + Repeat(4, 8), b, k, 8 + 4 * k);
    }
  }

  lemma TcpInfoDoubles(b: seq<byte>)
    requires |b| == 192 && Size(TCP_INFO_415) == 192 && |TCP_INFO_415| == 46
    ensures forall k :: 0 <= k < 4 ==> Decode(TCP_INFO_415, b)[32 + k] == Value(b[104 + 8 * k..112 + 8 * k])
  {
    TcpInfoSplit();
    hide Value, Decode, Repeat;
    forall k | 0 <= k < 4 ensures Decode(TCP_INFO_415, b)[32 + k] == Value(b[104 + 8 * k..112 + 8 * k]) {
      FieldOfRun(TCP_INFO_415, Repeat(8, 1) + Repeat(24, 4), 4, 8, Repeat(6, 4) + Repeat(4, 8), b, k, 104 + 8 * k);
    }
  }

  lemma TcpInfoMoreWords(b: seq<byte>)
    requires |b| == 192 && Size(TCP_INFO_415) == 192 && |TCP_INFO_415| == 46
    ensures forall k :: 0 <= k < 6 ==> Decode(TCP_INFO_415, b)[36 + k] == Value(b[136 + 4 * k..140 + 4 * k])
  {
    TcpInfoSplit();
    hide Value, Decode, Repeat;
    forall k | 0 <= k < 6 ensures Decode(TCP_INFO_415, b)[36 + k] == Value(b[136 + 4 * k..140 + 4 * k]) {
      FieldOfRun(TCP_INFO_415, Repeat(8, 1) + Repeat(24, 4) + Repeat(4, 8), 6, 4, Repeat(4, 8), b, k, 136 + 4 * k);
    }
  }

  lemma TcpInfoMoreDoubles(b: seq<byte>)
    requires |b| == 192 && Size(TCP_INFO_415) == 192 && |TCP_INFO_415| == 46
    ensures forall k :: 0 <= k < 4 ==> Decode(TCP_INFO_415, b)[42 + k] == Value(b[160 + 8 * k..168 + 8 * k])
  {
    TcpInfoSplit();
    hide Value, Decode, Repeat;
    forall k | 0 <= k < 4 ensures Decode(TCP_INFO_415, b)[42 + k] == Value(b[160 + 8 * k..168 + 8 * k]) {
      FieldOfRun(TCP_INFO_415, Repeat(8, 1) + Repeat(24, 4) + Repeat(4, 8) + Repeat(6, 4), 4, 8, [], b, k, 160 + 8 * k);
    }
  }

  lemma WordsOnWire(n: nat, b: seq<byte>)
    requires |b| == 4 * n
    ensures Size(Repeat(n, 4)) == |b|
    ensures forall k :: 0 <= k < n ==> Decode(Repeat(n, 4), b)[k] == Value(b[4 * k..4 * k + 4])
  {
    SizeOfRepeat(n, 4);
    hide *;
    forall k | 0 <= k < n ensures Decode(Repeat(n, 4), b)[k] == Value(b[4 * k..4 * k + 4]) {
      WordAt(n, b, k, 4 * k);
    }
  }

  lemma WordAt(n: nat, b: seq<byte>, k: nat, from: nat)
    requires |b| == 4 * n && k < n && from == 4 * k
    ensures Size(Repeat(n, 4)) == |b| && from + 4 <= |b| && |Repeat(n, 4)| == n
    ensures Decode(Repeat(n, 4), b)[k] == Value(b[from..from + 4])
  {
    SizeOfRepeat(n, 4);
    SizeOfRepeat(k, 4);
    RunAlone(n, k);
    hide *;
    FieldAfter(Repeat(n, 4), b, k, 4, from);
  }

  lemma RunAlone(n: nat, k: nat)
    requires k < n
    ensures Repeat(n, 4)[..k] == Repeat(k, 4) && Repeat(n, 4)[k] == 4
  {
  }

  lemma SkMemInfoOnWire(b: seq<byte>)
    requires |b| == 36
    ensures Size(SK_MEM_INFO) == 36 && |SK_MEM_INFO| == 9
    ensures forall k :: 0 <= k < 9 ==> Decode(SK_MEM_INFO, b)[k] == Value(b[4 * k..4 * k + 4])
  {
    WordsOnWire(9, b);
    hide Decode, Value, Size;
  }

  lemma BbrInfoOnWire(b: seq<byte>)
    requires |b| == 20
    ensures Size(BBR_INFO) == 20 && |BBR_INFO| == 5
    ensures forall k :: 0 <= k < 5 ==> Decode(BBR_INFO, b)[k] == Value(b[4 * k..4 * k + 4])
  {
    WordsOnWire(5, b);
    hide Decode, Value, Size;
  }
}
