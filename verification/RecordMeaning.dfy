/** What a record says about its socket, in the bytes the kernel put on the wire, whatever the history. */
module RecordMeaning {
  import opened Misc
  import opened Bytes
  import opened InetDiag
  import opened Attributes
  import opened Inetdiager
  import Wire

  /** i is the index of the last attribute of this type, -1 if there is none. */
  predicate Latest(attrs: seq<Attr>, t: nat, i: int) {
    && -1 <= i < |attrs| && (i >= 0 ==> attrs[i].nlaType == t)
    && forall j :: i < j < |attrs| ==> attrs[j].nlaType != t
  }

  /** The payload of attribute i; without one, zeros as long as the variable. */
  function PayloadOrZeros(attrs: seq<Attr>, i: int, size: nat): (p: seq<byte>)
    requires i < |attrs|
  {
    if i >= 0 then attrs[i].payload else Zeros(size)
  }

  /** Every attribute a worker has seen by the time it has decoded k. */
  function Seen(ks: seq<KernelMessage>, k: KernelMessage): (attrs: seq<Attr>)
    requires AllMessages(ks) && WellFormedMessage(k)
    ensures AllWellFormed(attrs)
  {
    assert AllMessages(ks + [k]);
    AllAttrs(ks + [k])
  }

  lemma SeenIs(ks: seq<KernelMessage>, k: KernelMessage)
    requires AllMessages(ks) && WellFormedMessage(k)
    ensures AllMessages(ks + [k]) && Seen(ks, k) == AllAttrs(ks + [k])
    ensures Seen(ks, k) == AllAttrs(ks) + k.attrs
  {
    assert AllMessages(ks + [k]);
    assert (ks + [k])[..|ks|] == ks;
    hide WellFormedMessage;
  }

  /** An attribute of the message itself comes after everything seen before. */
  lemma OwnAttributesLast(ks: seq<KernelMessage>, k: KernelMessage, t: nat, i: int)
    requires AllMessages(ks) && WellFormedMessage(k) && Latest(k.attrs, t, i) && i >= 0
    ensures Latest(Seen(ks, k), t, |AllAttrs(ks)| + i) && Seen(ks, k)[|AllAttrs(ks)| + i] == k.attrs[i]
  {
    hide *;
    SeenIs(ks, k);
    BehindOthers(AllAttrs(ks), k.attrs, t, i);
  }

  lemma BehindOthers(before: seq<Attr>, attrs: seq<Attr>, t: nat, i: int)
    requires Latest(attrs, t, i) && i >= 0
    ensures Latest(before + attrs, t, |before| + i) && (before + attrs)[|before| + i] == attrs[i]
  {
    assert forall j :: |before| <= j < |before + attrs| ==> (before + attrs)[j] == attrs[j - |before|];
  }

  lemma VariableIs(ks: seq<KernelMessage>, k: KernelMessage, t: nat, i: int)
    requires AllMessages(ks) && WellFormedMessage(k) && Latest(Seen(ks, k), t, i) && Decoded(t)
    ensures AllMessages(ks + [k]) && (i >= 0 ==> WellFormed(Seen(ks, k)[i]))
    ensures Get(DecoderAfter(ks + [k]).fields, t) == if i >= 0 then Meaning(Seen(ks, k)[i]) else Get(ZERO_FIELDS, t)
  {
    SeenIs(ks, k);
    DecoderAfterAll(ks + [k]);
    hide DecoderAfter, StoreAll, WellFormed, Meaning, WellFormedMessage, AllMessages, Seen;
    LastWins(ZERO_FIELDS, AllAttrs(ks + [k]), t, i);
  }

  /** A fixed-size variable holds the front of the last payload of its type. */
  lemma ImageIs(ks: seq<KernelMessage>, k: KernelMessage, t: nat, i: int)
    requires AllMessages(ks) && WellFormedMessage(k) && Latest(Seen(ks, k), t, i) && SizeOf(t) > 0
    ensures AllMessages(ks + [k])
    ensures var p := PayloadOrZeros(Seen(ks, k), i, SizeOf(t));
            |p| >= SizeOf(t) && Get(DecoderAfter(ks + [k]).fields, t) == p[..SizeOf(t)]
  {
    VariableIs(ks, k, t, i);
    ZeroVariable(t);
    hide DecoderAfter, WellFormedMessage, AllMessages, Seen, Get, ZERO_FIELDS;
  }

  lemma ZeroVariable(t: nat)
    requires SizeOf(t) > 0
    ensures t != CONG && Get(ZERO_FIELDS, t) == Zeros(SizeOf(t)) == Zeros(SizeOf(t))[..SizeOf(t)]
  {
  }

  /** Header, time stamp and host: addresses are cut to the family's length, whatever came before. */
  lemma RecordTellsSocket(hostname: string, now: nat, ks: seq<KernelMessage>, k: KernelMessage)
    requires AllMessages(ks) && WellFormedMessage(k) && k.hdr.family in {2, 10}
    ensures var r, n := RecordAfter(hostname, now, ks, k), if k.hdr.family == 2 then 4 else 16;
            && r.hostname == hostname && r.epochTime == now
            && r.socket == k.hdr.(source := k.hdr.source[..n], destination := k.hdr.destination[..n])
  {
    DecoderAfterLast(ks, k);
    RecordAfterIs(hostname, now, ks, k);
    hide DecoderAfter, RecordAfter, StoreAll, WellFormedMessage;
    SocketOfRecord(hostname, now, DecoderAfter(ks + [k]));
  }

  lemma SocketOfRecord(hostname: string, now: nat, d: Decoder)
    requires FitsDecoder(d)
    ensures var r := BuildProto(hostname, now, d);
            && r.hostname == hostname && r.epochTime == now
            && r.socket == d.hdr.(source := d.hdr.source[..d.ipLen], destination := d.hdr.destination[..d.ipLen])
  {
  }

  /** TCP_INFO is attribute 2: six bytes, two packed bytes, 24 words, four double words, six words, four double
      words. */
  lemma RecordTellsTcpInfo(hostname: string, now: nat, ks: seq<KernelMessage>, k: KernelMessage, i: int)
    requires AllMessages(ks) && WellFormedMessage(k) && Latest(Seen(ks, k), 2, i)
    ensures var r, p := RecordAfter(hostname, now, ks, k), PayloadOrZeros(Seen(ks, k), i, 192);
            && |p| >= 192 && r.tcpHead == p[..6]
            && r.sendScale == p[6] / 16 && r.rcvScale == p[6] % 16 && r.deliveryRateAppLimited == p[7] % 2
            && |r.tcpRest| == 38
            && (forall j :: 0 <= j < 24 ==> r.tcpRest[j] == Value(p[8 + 4 * j..12 + 4 * j]))
            && (forall j :: 0 <= j < 4 ==> r.tcpRest[24 + j] == Value(p[104 + 8 * j..112 + 8 * j]))
            && (forall j :: 0 <= j < 6 ==> r.tcpRest[28 + j] == Value(p[136 + 4 * j..140 + 4 * j]))
            && (forall j :: 0 <= j < 4 ==> r.tcpRest[34 + j] == Value(p[160 + 8 * j..168 + 8 * j]))
  {
    ImageIs(ks, k, 2, i);
    RecordAfterIs(hostname, now, ks, k);
    var p := PayloadOrZeros(Seen(ks, k), i, 192);
    hide *;
    SizeOfInfo();
    TcpInfoOfRecord(hostname, now, DecoderAfter(ks + [k]), p);
  }

  lemma SizeOfInfo()
    ensures SizeOf(2) == 192 && SizeOf(7) == 36 && SizeOf(16) == 20
  {
  }

  lemma TcpInfoOfRecord(hostname: string, now: nat, d: Decoder, p: seq<byte>)
    requires FitsDecoder(d) && |p| >= 192 && Get(d.fields, 2) == p[..192]
    ensures var r := BuildProto(hostname, now, d);
            && r.tcpHead == p[..6]
            && r.sendScale == p[6] / 16 && r.rcvScale == p[6] % 16 && r.deliveryRateAppLimited == p[7] % 2
            && |r.tcpRest| == 38
            && (forall j :: 0 <= j < 24 ==> r.tcpRest[j] == Value(p[8 + 4 * j..12 + 4 * j]))
            && (forall j :: 0 <= j < 4 ==> r.tcpRest[24 + j] == Value(p[104 + 8 * j..112 + 8 * j]))
            && (forall j :: 0 <= j < 6 ==> r.tcpRest[28 + j] == Value(p[136 + 4 * j..140 + 4 * j]))
            && (forall j :: 0 <= j < 4 ==> r.tcpRest[34 + j] == Value(p[160 + 8 * j..168 + 8 * j]))
  {
    var b := p[..192];
    hide *;
    Wire.TcpInfoOnWire(b);
    TcpInfoParts(hostname, now, d, b);
    TcpInfoSlices(p);
  }

  lemma TcpInfoSlices(p: seq<byte>)
    requires |p| >= 192
    ensures var b := p[..192];
            && (forall j :: 0 <= j < 24 ==> b[8 + 4 * j..12 + 4 * j] == p[8 + 4 * j..12 + 4 * j])
            && (forall j :: 0 <= j < 4 ==> b[104 + 8 * j..112 + 8 * j] == p[104 + 8 * j..112 + 8 * j])
            && (forall j :: 0 <= j < 6 ==> b[136 + 4 * j..140 + 4 * j] == p[136 + 4 * j..140 + 4 * j])
            && (forall j :: 0 <= j < 4 ==> b[160 + 8 * j..168 + 8 * j] == p[160 + 8 * j..168 + 8 * j])
  {
    forall i, j | 0 <= i <= j <= 192 ensures p[..192][i..j] == p[i..j] {
      FrontSlice(p, 192, i, j);
    }
  }

  lemma TcpInfoParts(hostname: string, now: nat, d: Decoder, b: seq<byte>)
    requires FitsDecoder(d) && Get(d.fields, 2) == b && |b| == Size(TCP_INFO_415) && |TCP_INFO_415| == 46
    ensures var r, v := BuildProto(hostname, now, d), Decode(TCP_INFO_415, b);
            && |v| == 46 && r.tcpHead == v[..6] && r.tcpRest == v[8..] && r.sendScale == v[6] / 16
            && r.rcvScale == v[6] % 16 && r.deliveryRateAppLimited == v[7] % 2
  {
  }

  /** SKMEMINFO is attribute 7: nine words. */
  lemma RecordTellsSkMemInfo(hostname: string, now: nat, ks: seq<KernelMessage>, k: KernelMessage, i: int)
    requires AllMessages(ks) && WellFormedMessage(k) && Latest(Seen(ks, k), 7, i)
    ensures var r, p := RecordAfter(hostname, now, ks, k), PayloadOrZeros(Seen(ks, k), i, 36);
            |p| >= 36 && |r.skMemInfo| == 9
            && forall j :: 0 <= j < 9 ==> r.skMemInfo[j] == Value(p[4 * j..4 * j + 4])
  {
    ImageIs(ks, k, 7, i);
    RecordAfterIs(hostname, now, ks, k);
    var p := PayloadOrZeros(Seen(ks, k), i, 36);
    hide *;
    SizeOfInfo();
    SkMemInfoOfRecord(hostname, now, DecoderAfter(ks + [k]), p);
  }

  lemma SkMemInfoOfRecord(hostname: string, now: nat, d: Decoder, p: seq<byte>)
    requires FitsDecoder(d) && |p| >= 36 && Get(d.fields, 7) == p[..36]
    ensures var r := BuildProto(hostname, now, d);
            && |r.skMemInfo| == 9 && forall j :: 0 <= j < 9 ==> r.skMemInfo[j] == Value(p[4 * j..4 * j + 4])
  {
    RecordStructs(hostname, now, d);
    SkMemInfoIs(d.fields);
    hide *;
    Wire.SkMemInfoOnWire(p[..36]);
    FrontWords(p, 9);
  }

  lemma FrontWords(p: seq<byte>, n: nat)
    requires |p| >= 4 * n
    ensures forall j :: 0 <= j < n ==> p[..4 * n][4 * j..4 * j + 4] == p[4 * j..4 * j + 4]
  {
    forall j | 0 <= j < n ensures p[..4 * n][4 * j..4 * j + 4] == p[4 * j..4 * j + 4] {
      FrontSlice(p, 4 * n, 4 * j, 4 * j + 4);
    }
  }

  lemma FrontSlice(p: seq<byte>, n: nat, i: nat, j: nat)
    requires i <= j <= n <= |p|
    ensures p[..n][i..j] == p[i..j]
  {
  }

  lemma SkMemInfoIs(f: Fields)
    ensures Get(f, 7) == f.skmeminfo && Get(f, 16) == f.bbrinfo && Get(f, 4) == f.congestionAlgorithm
  {
  }

  /** The enum is decided by the first three letters of the last CONG, attribute 4, of the whole history: "cub" is
      CUBIC, "bbr" is BBR1, anything else and no name at all is UNKNOWN. */
  lemma RecordTellsCongestion(hostname: string, now: nat, ks: seq<KernelMessage>, k: KernelMessage, cong: int)
    requires AllMessages(ks) && WellFormedMessage(k) && Latest(Seen(ks, k), 4, cong)
    ensures cong >= 0 ==> |Seen(ks, k)[cong].payload| >= 3
    ensures var r := RecordAfter(hostname, now, ks, k);
            if cong < 0 then r.congestionAlgorithm == UNKNOWN
            else
              var p := Seen(ks, k)[cong].payload;
              && (r.congestionAlgorithm == CUBIC <==> p[..3] == [99, 117, 98])
              && (r.congestionAlgorithm == BBR1 <==> p[..3] == [98, 98, 114])
  {
    AlgorithmIs(ks, k, cong);
    RecordAfterIs(hostname, now, ks, k);
    hide *;
    EnumOfRecord(hostname, now, DecoderAfter(ks + [k]));
  }

  lemma AlgorithmIs(ks: seq<KernelMessage>, k: KernelMessage, cong: int)
    requires AllMessages(ks) && WellFormedMessage(k) && Latest(Seen(ks, k), 4, cong)
    ensures AllMessages(ks + [k]) && (cong >= 0 ==> |Seen(ks, k)[cong].payload| >= 3)
    ensures DecoderAfter(ks + [k]).fields.congestionAlgorithm
            == if cong >= 0 then Seen(ks, k)[cong].payload[..3] else []
  {
    VariableIs(ks, k, 4, cong);
    hide DecoderAfter, WellFormedMessage, AllMessages, Seen;
    SkMemInfoIs(DecoderAfter(ks + [k]).fields);
  }

  lemma EnumOfRecord(hostname: string, now: nat, d: Decoder)
    requires FitsDecoder(d)
    ensures var r, name := BuildProto(hostname, now, d), d.fields.congestionAlgorithm;
            && (r.congestionAlgorithm == CUBIC <==> name == [99, 117, 98])
            && (r.congestionAlgorithm == BBR1 <==> name == [98, 98, 114])
            && (name == [] ==> r.congestionAlgorithm == UNKNOWN)
  {
    RecordScalars(hostname, now, d);
    hide BuildProto, FitsDecoder, Value;
  }

  /** BBRINFO is attribute 16: five words, in the record if and only if the last algorithm named is bbr. */
  lemma RecordTellsBbrInfo(hostname: string, now: nat, ks: seq<KernelMessage>, k: KernelMessage, cong: int, i: int)
    requires AllMessages(ks) && WellFormedMessage(k) && Latest(Seen(ks, k), 4, cong) && Latest(Seen(ks, k), 16, i)
    ensures cong >= 0 ==> |Seen(ks, k)[cong].payload| >= 3
    ensures var r, p := RecordAfter(hostname, now, ks, k), PayloadOrZeros(Seen(ks, k), i, 20);
            && |p| >= 20
            && (r.bbrInfo.Some? <==> cong >= 0 && Seen(ks, k)[cong].payload[..3] == [98, 98, 114])
            && (r.bbrInfo.Some? ==>
                  |r.bbrInfo.value| == 5
                  && forall j :: 0 <= j < 5 ==> r.bbrInfo.value[j] == Value(p[4 * j..4 * j + 4]))
  {
    ImageIs(ks, k, 16, i);
    AlgorithmIs(ks, k, cong);
    RecordAfterIs(hostname, now, ks, k);
    var p := PayloadOrZeros(Seen(ks, k), i, 20);
    hide *;
    SizeOfInfo();
    BbrOfRecord(hostname, now, DecoderAfter(ks + [k]), p);
  }

  lemma BbrOfRecord(hostname: string, now: nat, d: Decoder, p: seq<byte>)
    requires FitsDecoder(d) && |p| >= 20 && Get(d.fields, 16) == p[..20]
    ensures var r := BuildProto(hostname, now, d);
            && (r.bbrInfo.Some? <==> d.fields.congestionAlgorithm == [98, 98, 114])
            && (r.bbrInfo.Some? ==>
                  |r.bbrInfo.value| == 5
                  && forall j :: 0 <= j < 5 ==> r.bbrInfo.value[j] == Value(p[4 * j..4 * j + 4]))
  {
    var b := p[..20];
    SkMemInfoIs(d.fields);
    LayoutSizes();
    BbrIs(hostname, now, d, b);
    hide *;
    Wire.BbrInfoOnWire(b);
    FrontWords(p, 5);
  }

  lemma BbrIs(hostname: string, now: nat, d: Decoder, b: seq<byte>)
    requires FitsDecoder(d) && |b| == Size(BBR_INFO) && d.fields.bbrinfo == b
    ensures BuildProto(hostname, now, d).bbrInfo
         == if d.fields.congestionAlgorithm == [98, 98, 114] then Some(Decode(BBR_INFO, b)) else None
  {
  }

  /** The optional numbers: TOS is attribute 5, TCLASS 6, SHUTDOWN 8, one byte each; CLASS_ID is attribute 17, four
      bytes. Each is in the record exactly when it is not zero. */
  lemma RecordTellsScalars(hostname: string, now: nat, ks: seq<KernelMessage>, k: KernelMessage, tos: int, tclass: int,
                           shutdown: int, classId: int)
    requires AllMessages(ks) && WellFormedMessage(k)
    requires Latest(Seen(ks, k), 5, tos) && Latest(Seen(ks, k), 6, tclass) && Latest(Seen(ks, k), 8, shutdown)
    requires Latest(Seen(ks, k), 17, classId)
    ensures var r := RecordAfter(hostname, now, ks, k);
            var a, b := PayloadOrZeros(Seen(ks, k), tos, 1), PayloadOrZeros(Seen(ks, k), tclass, 1);
            var c, e := PayloadOrZeros(Seen(ks, k), shutdown, 1), PayloadOrZeros(Seen(ks, k), classId, 4);
            && |a| >= 1 && |b| >= 1 && |c| >= 1 && |e| >= 4
            && r.typeOfService == (if a[0] == 0 then None else Some(a[0] as nat))
            && r.trafficClass == (if b[0] == 0 then None else Some(b[0] as nat))
            && r.shutdownState == (if c[0] == 0 then None else Some(c[0] as nat))
            && r.classId == (if Value(e[..4]) == 0 then None else Some(Value(e[..4])))
  {
    hide *;
    ByteIs(ks, k, 5, tos);
    ByteIs(ks, k, 6, tclass);
    ByteIs(ks, k, 8, shutdown);
    WordIs(ks, k, classId);
    RecordIs(hostname, now, ks, k);
    ScalarsOfRecord(hostname, now, DecoderAfter(ks + [k]));
  }

  lemma RecordIs(hostname: string, now: nat, ks: seq<KernelMessage>, k: KernelMessage)
    requires AllMessages(ks) && WellFormedMessage(k)
    ensures AllMessages(ks + [k])
    ensures var d := DecoderAfter(ks + [k]);
            FitsDecoder(d) && RecordAfter(hostname, now, ks, k) == BuildProto(hostname, now, d)
  {
    RecordAfterIs(hostname, now, ks, k);
  }

  lemma WordIs(ks: seq<KernelMessage>, k: KernelMessage, i: int)
    requires AllMessages(ks) && WellFormedMessage(k) && Latest(Seen(ks, k), 17, i)
    ensures AllMessages(ks + [k])
    ensures var p := PayloadOrZeros(Seen(ks, k), i, 4);
            |p| >= 4 && Value(Get(DecoderAfter(ks + [k]).fields, 17)) == Value(p[..4])
  {
    ImageIs(ks, k, 17, i);
    assert SizeOf(17) == 4;
    hide *;
  }

  lemma ScalarsOfRecord(hostname: string, now: nat, d: Decoder)
    requires FitsDecoder(d)
    ensures var r := BuildProto(hostname, now, d);
            var a, b, c, e := Value(Get(d.fields, 5)), Value(Get(d.fields, 6)), Value(Get(d.fields, 8)),
                              Value(Get(d.fields, 17));
            && r.typeOfService == (if a == 0 then None else Some(a))
            && r.trafficClass == (if b == 0 then None else Some(b))
            && r.shutdownState == (if c == 0 then None else Some(c))
            && r.classId == (if e == 0 then None else Some(e))
  {
    RecordScalars(hostname, now, d);
    hide BuildProto, FitsDecoder, Value;
  }

  lemma ByteIs(ks: seq<KernelMessage>, k: KernelMessage, t: nat, i: int)
    requires AllMessages(ks) && WellFormedMessage(k) && Latest(Seen(ks, k), t, i) && t in {5, 6, 8}
    ensures AllMessages(ks + [k])
    ensures var p := PayloadOrZeros(Seen(ks, k), i, 1);
            |p| >= 1 && Value(Get(DecoderAfter(ks + [k]).fields, t)) == p[0]
  {
    ImageIs(ks, k, t, i);
    var p := PayloadOrZeros(Seen(ks, k), i, 1);
    assert SizeOf(t) == 1;
    hide *;
    Wire.OneByteValue(p[..1]);
  }
}
