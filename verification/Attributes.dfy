/** processNetlinkAttributes: the attribute loop of an inetdiager, its encoder, and what links them. */
module Attributes {
  import opened Bytes
  import opened InetDiag
  import opened Reader

  const MEMINFO: nat := 1
  const INFO: nat := 2
  const CONG: nat := 4
  const TOS: nat := 5
  const TCLASS: nat := 6
  const SKMEMINFO: nat := 7
  const SHUTDOWN: nat := 8
  const MARK: nat := 15
  const BBRINFO: nat := 16
  const CLASS_ID: nat := 17

  /** Size of the Go type read for an attribute type; 0 for the types that are skipped and for CONG,
      whose size varies. */
  function SizeOf(t: nat): nat {
    match t
    case 1 => 16
    case 2 => 192
    case 5 => 1
    case 6 => 1
    case 7 => 36
    case 8 => 1
    case 15 => 4
    case 16 => 20
    case 17 => 4
    case _ => 0
  }

  predicate Decoded(t: nat) {
    t == CONG || SizeOf(t) > 0
  }

  // ---- The variables the loop writes through pointers; a struct is held as its image ----

  datatype Fields = Fields(
    meminfo: seq<byte>, tcpinfo: seq<byte>, congestionAlgorithm: seq<byte>,
    typeOfService: seq<byte>, trafficClass: seq<byte>, skmeminfo: seq<byte>, shutdownState: seq<byte>,
    mark: seq<byte>, bbrinfo: seq<byte>, classID: seq<byte>)

  const ZERO_FIELDS: Fields :=
    Fields(Zeros(16), Zeros(192), [], Zeros(1), Zeros(1), Zeros(36), Zeros(1), Zeros(4), Zeros(20), Zeros(4))

  ghost predicate FitsFields(f: Fields) {
    && (forall t :: SizeOf(t) > 0 ==> |Get(f, t)| == SizeOf(t))
    && |f.congestionAlgorithm| in {0, 3}
  }

  function Get(f: Fields, t: nat): seq<byte> {
    match t
    case 1 => f.meminfo
    case 2 => f.tcpinfo
    case 4 => f.congestionAlgorithm
    case 5 => f.typeOfService
    case 6 => f.trafficClass
    case 7 => f.skmeminfo
    case 8 => f.shutdownState
    case 15 => f.mark
    case 16 => f.bbrinfo
    case 17 => f.classID
    case _ => []
  }

  function Put(f: Fields, t: nat, v: seq<byte>): (g: Fields)
    ensures forall u :: Get(g, u) == if u == t && Decoded(t) then v else Get(f, u)
  {
    match t
    case 1 => f.(meminfo := v)
    case 2 => f.(tcpinfo := v)
    case 4 => f.(congestionAlgorithm := v)
    case 5 => f.(typeOfService := v)
    case 6 => f.(trafficClass := v)
    case 7 => f.(skmeminfo := v)
    case 8 => f.(shutdownState := v)
    case 15 => f.(mark := v)
    case 16 => f.(bbrinfo := v)
    case 17 => f.(classID := v)
    case _ => f
  }

  // ---- The loop as a function of the unread bytes ----

  datatype BodyResult = BodyPanic | Body(fields: Fields, rest: seq<byte>, complete: bool, attributesBytesRead: nat)

  /** The switch: one attribute's payload. A failed read completes the message but still reports its full size. */
  function ReadBody(f: Fields, h: Nlattr, rest: seq<byte>): BodyResult {
    var t, n := h.nlaType, SizeOf(h.nlaType);
    if t == 0 then Body(f, rest, true, 0)
    else if t == CONG then
      if h.nlaLen < 7 then BodyPanic
      else if h.nlaLen - 4 <= |rest| then Body(Put(f, t, rest[..3]), rest[h.nlaLen - 4..], false, h.nlaLen - 4)
      else Body(Put(f, t, Zeros(3)), [], true, h.nlaLen - 4)
    else if n == 0 then Body(f, rest, false, 0)
    else if n <= |rest| then Body(Put(f, t, rest[..n]), rest[n..], false, n)
    else Body(f, [], true, n)
  }

  /** Surplus payload plus alignment. */
  function PadLength(nlaLen: nat, attributesBytesRead: nat): nat {
    (if attributesBytesRead + 4 < nlaLen then nlaLen - attributesBytesRead - 4 else 0)
    + (if nlaLen % 4 > 0 then 4 - nlaLen % 4 else 0)
  }

  datatype AttrResult = Panic | Stopped(fields: Fields, rest: seq<byte>, bytesRead: nat, padBufferSize: nat)

  function Plus(n: nat, pad: nat, r: AttrResult): AttrResult {
    match r
    case Panic => Panic
    case Stopped(f, rest, b, p) => Stopped(f, rest, n + b, pad + p)
  }

  function NextHeader(h: Nlattr, rest: seq<byte>): Nlattr {
    if |rest| >= 4 then DecodeNlattr(rest[..4]) else h
  }

  function AfterHeader(rest: seq<byte>): seq<byte> {
    if |rest| >= 4 then rest[4..] else []
  }

  datatype StepResult =
    | StepPanic
    | Last(fields: Fields, rest: seq<byte>, bytesRead: nat, pad: nat)
    | Next(fields: Fields, h: Nlattr, rest: seq<byte>, bytesRead: nat, pad: nat)

  /** One turn of the loop over a non-empty reader. A reader too short for the skip ends the message uncounted. */
  function Step(f: Fields, h: Nlattr, rest: seq<byte>): (r: StepResult)
    requires rest != []
    ensures r.Next? ==> |r.rest| < |rest|
  {
    var h1 := NextHeader(h, rest);
    match ReadBody(f, h1, AfterHeader(rest))
    case BodyPanic => StepPanic
    case Body(f1, rest1, complete, got) =>
      var pad := PadLength(h1.nlaLen, got);
      var n := 4 + (if pad > 0 then got + pad else 0);
      if pad > |rest1| then Last(f1, [], 4, 0)
      else if complete then Last(f1, rest1[pad..], n, pad)
      else Next(f1, h1, rest1[pad..], n, pad)
  }

  /** The loop from a state with last header h. It has no other ending than Panic or a completed message. */
  function Attributes(f: Fields, h: Nlattr, rest: seq<byte>): AttrResult
    decreases |rest|
  {
    if rest == [] then Stopped(f, [], 0, 0)
    else
      match Step(f, h, rest)
      case StepPanic => Panic
      case Last(f1, rest1, n, pad) => Stopped(f1, rest1, n, pad)
      case Next(f1, h1, rest1, n, pad) => Plus(n, pad, Attributes(f1, h1, rest1))
  }

  lemma StepFits(f: Fields, h: Nlattr, rest: seq<byte>)
    requires FitsFields(f) && rest != []
    ensures var r := Step(f, h, rest); !r.StepPanic? ==> FitsFields(r.fields)
  {
    var b := ReadBody(f, NextHeader(h, rest), AfterHeader(rest));
    if b.Body? {
      assert Get(b.fields, CONG) == b.fields.congestionAlgorithm;
    }
  }

  lemma {:induction false} AttributesFit(f: Fields, h: Nlattr, rest: seq<byte>)
    requires FitsFields(f)
    ensures Attributes(f, h, rest).Stopped? ==> FitsFields(Attributes(f, h, rest).fields)
    decreases |rest|
  {
    if rest != [] {
      StepFits(f, h, rest);
      var r := Step(f, h, rest);
      if r.Next? {
        AttributesFit(r.fields, r.h, r.rest);
      }
    }
  }

  // ---- The loop as the source runs it ----

  class SocketFields {
    var meminfo: seq<byte>
    var tcpinfo: seq<byte>
    var sndWscale: nat
    var rcvWscale: nat
    var congestionAlgorithm: seq<byte>
    var typeOfService: byte
    var trafficClass: byte
    var skmeminfo: seq<byte>
    var shutdownState: byte
    var bbrinfo: seq<byte>
    var classID: nat
    var mark: nat
    var deliveryRateAppLimited: nat
    var fastOpenClientFail: nat

    function Contents(): Fields
      reads this
    {
      Fields(meminfo, tcpinfo, congestionAlgorithm, [typeOfService], [trafficClass], skmeminfo, [shutdownState],
             LittleEndian(mark, 4), bbrinfo, LittleEndian(classID, 4))
    }

    /** The four split-out variables always agree with the two packed bytes of tcpinfo. */
    ghost predicate Valid()
      reads this
    {
      && |meminfo| == 16 && |tcpinfo| == 192 && |skmeminfo| == 36 && |bbrinfo| == 20 && |congestionAlgorithm| in {0, 3}
      && classID < Pow256(4) && mark < Pow256(4)
      && sndWscale == tcpinfo[6] / 16 && rcvWscale == tcpinfo[6] % 16
      && deliveryRateAppLimited == tcpinfo[7] % 2 && fastOpenClientFail == tcpinfo[7] / 2
    }

    lemma ContentsFit()
      requires Valid()
      ensures FitsFields(Contents())
    {
    }

    constructor ()
      ensures Valid() && Contents() == ZERO_FIELDS
    {
      meminfo, tcpinfo, skmeminfo, bbrinfo := Zeros(16), Zeros(192), Zeros(36), Zeros(20);
      sndWscale, rcvWscale, deliveryRateAppLimited, fastOpenClientFail := 0, 0, 0, 0;
      congestionAlgorithm := [];
      typeOfService, trafficClass, shutdownState, classID, mark := 0, 0, 0, 0, 0;
      new;
      ZeroImage();
    }

    /** binaryReadWithErrorHandling: bytesRead is the size of the target even when the read failed. */
    method BinaryRead(rd: ByteReader, size: nat) returns (complete: bool, bytesRead: nat, got: seq<byte>)
      requires rd.Valid()
      modifies rd`pos
      ensures rd.Valid() && bytesRead == size
      ensures complete <==> size > |old(rd.Rest())|
      ensures !complete ==> got == old(rd.Rest())[..size] && rd.Rest() == old(rd.Rest())[size..]
      ensures complete ==> rd.Rest() == []
    {
      var err;
      err, got := rd.ReadFull(size);
      complete := err != NoError;
      bytesRead := size;
    }

    method ReadAttribute(nlattr: Nlattr, rd: ByteReader)
      returns (panicked: bool, complete: bool, attributesBytesRead: nat)
      requires Valid() && rd.Valid()
      modifies this, rd`pos
      ensures rd.Valid()
      ensures panicked <==> ReadBody(old(Contents()), nlattr, old(rd.Rest())).BodyPanic?
      ensures !panicked ==>
        Valid() && ReadBody(old(Contents()), nlattr, old(rd.Rest()))
            == Body(Contents(), rd.Rest(), complete, attributesBytesRead)
    {
      panicked, complete, attributesBytesRead := false, false, 0;
      ghost var rest := rd.Rest();
      var got;
      var size := SizeOf(nlattr.nlaType);
      if nlattr.nlaType == 0 {
        complete := true;
      } else if nlattr.nlaType == CONG {
        if nlattr.nlaLen < 7 {
          panicked := true;
        } else {
          complete, attributesBytesRead, got := BinaryRead(rd, nlattr.nlaLen - 4);
          congestionAlgorithm := if complete then Zeros(3) else got[..3];
          assert !complete ==> congestionAlgorithm == rest[..3];
        }
      } else if size > 0 {
        complete, attributesBytesRead, got := BinaryRead(rd, size);
        if !complete {
          Assign(nlattr.nlaType, got);
        } else if nlattr.nlaType == INFO {
          SplitPackedBytes();
        }
      }
    }

    /** The target of a fixed-size read takes its new value; INFO also refreshes the split-out variables. */
    method Assign(t: nat, got: seq<byte>)
      requires Valid() && t != CONG && SizeOf(t) > 0 && |got| == SizeOf(t)
      modifies this
      ensures Valid() && Contents() == Put(old(Contents()), t, got)
    {
      match t {
        case 1 => meminfo := got;
        case 2 =>
          tcpinfo := got;
          SplitPackedBytes();
        case 5 => typeOfService := got[0];
        case 6 => trafficClass := got[0];
        case 7 => skmeminfo := got;
        case 8 => shutdownState := got[0];
        case 15 =>
          mark := Value(got);
          LittleEndianOfValue(got);
        case 16 => bbrinfo := got;
        case 17 =>
          classID := Value(got);
          LittleEndianOfValue(got);
      }
      assert |got| == 1 ==> got == [got[0]];
    }

    method SplitPackedBytes()
      requires |tcpinfo| == 192
      modifies this`sndWscale, this`rcvWscale, this`deliveryRateAppLimited, this`fastOpenClientFail
      ensures sndWscale == tcpinfo[6] / 16 && rcvWscale == tcpinfo[6] % 16
      ensures deliveryRateAppLimited == tcpinfo[7] % 2 && fastOpenClientFail == tcpinfo[7] / 2
    {
      sndWscale, rcvWscale := tcpinfo[6] / 16, tcpinfo[6] % 16;
      deliveryRateAppLimited, fastOpenClientFail := tcpinfo[7] % 2, tcpinfo[7] / 2;
    }

    /** The header read: a short one eats the reader and leaves the header variable alone. */
    method ReadHeader(last: Nlattr, rd: ByteReader) returns (eof: bool, nlattr: Nlattr)
      requires rd.Valid()
      modifies rd`pos
      ensures rd.Valid() && rd.Rest() == AfterHeader(old(rd.Rest()))
      ensures eof <==> old(rd.Rest()) == []
      ensures nlattr == NextHeader(last, old(rd.Rest()))
    {
      var err, header := rd.ReadFull(4);
      eof := err == EOF;
      nlattr := if err == NoError then DecodeNlattr(header) else last;
    }

    /** The skip over surplus payload and alignment. */
    method SkipPad(nlaLen: nat, attributesBytesRead: nat, rd: ByteReader) returns (skipped: bool, padBufferSize: nat)
      requires rd.Valid()
      modifies rd`pos
      ensures rd.Valid() && padBufferSize == PadLength(nlaLen, attributesBytesRead)
      ensures skipped <==> padBufferSize <= |old(rd.Rest())|
      ensures rd.Rest() == if skipped then old(rd.Rest())[padBufferSize..] else []
    {
      var padSize := if attributesBytesRead + 4 < nlaLen then nlaLen - attributesBytesRead - 4 else 0;
      var padAlignSize := if nlaLen % 4 > 0 then 4 - nlaLen % 4 else 0;
      skipped, padBufferSize := true, padSize + padAlignSize;
      if padBufferSize > 0 {
        var err, padBuffer := rd.ReadFull(padBufferSize);
        skipped := err == NoError;
      }
    }

    /** The loop body: header, switch, skip. `last` is the header variable of the previous turn. */
    method OneAttribute(last: Nlattr, rd: ByteReader)
      returns (panicked: bool, complete: bool, nlattr: Nlattr, bytesRead: nat, padBufferSize: nat)
      requires Valid() && rd.Valid()
      modifies this, rd`pos
      ensures rd.Valid()
      ensures old(rd.Rest()) == [] ==>
        !panicked && complete && Valid() && Contents() == old(Contents()) && rd.Rest() == []
            && bytesRead == padBufferSize == 0
      ensures old(rd.Rest()) != [] ==> panicked == Step(old(Contents()), last, old(rd.Rest())).StepPanic?
      ensures old(rd.Rest()) != [] && !panicked ==>
        Valid() && Step(old(Contents()), last, old(rd.Rest()))
          == if complete then Last(Contents(), rd.Rest(), bytesRead, padBufferSize)
             else Next(Contents(), nlattr, rd.Rest(), bytesRead, padBufferSize)
    {
      hide *;
      ghost var f, rest := Contents(), rd.Rest();
      panicked, bytesRead, padBufferSize := false, 0, 0;
      complete, nlattr := ReadHeader(last, rd);
      if complete {
        EmptyAfterHeader(rest);
        return;
      }
      StepOfBody(f, last, rest, ReadBody(f, nlattr, rd.Rest()));
      var attributesBytesRead: nat;
      panicked, complete, attributesBytesRead := ReadAttribute(nlattr, rd);
      bytesRead := 4;
      if panicked {
        return;
      }
      ghost var f1, rest1 := Contents(), rd.Rest();
      var skipped, pad := SkipPad(nlattr.nlaLen, attributesBytesRead, rd);
      assert Valid() && Contents() == f1;
      assert pad == PadLength(nlattr.nlaLen, attributesBytesRead) && (skipped <==> pad <= |rest1|);
      if !skipped {
        complete := true;
      } else if pad > 0 {
        padBufferSize := pad;
        bytesRead := bytesRead + attributesBytesRead + pad;
      }
    }

    method ProcessNetlinkAttributes(rd: ByteReader)
      returns (panicked: bool, complete: bool, bytesRead: nat, padBufferSize: nat)
      requires Valid() && rd.Valid()
      modifies this, rd`pos
      ensures rd.Valid()
      ensures panicked <==> Attributes(old(Contents()), Nlattr(0, 0), old(rd.Rest())).Panic?
      ensures !panicked ==>
        complete && Valid()
        && Attributes(old(Contents()), Nlattr(0, 0), old(rd.Rest()))
           == Stopped(Contents(), rd.Rest(), bytesRead, padBufferSize)
    {
      hide *;
      ghost var want := Attributes(Contents(), Nlattr(0, 0), rd.Rest());
      var nlattr := Nlattr(0, 0);
      panicked, complete, bytesRead, padBufferSize := false, false, 0, 0;
      NothingRead(want);
      while !complete
        invariant Valid() && rd.Valid() && !panicked
        invariant !complete ==> want == Plus(bytesRead, padBufferSize, Attributes(Contents(), nlattr, rd.Rest()))
        invariant complete ==> want == Stopped(Contents(), rd.Rest(), bytesRead, padBufferSize)
        decreases if complete then 0 else 1 + |rd.Rest()|
      {
        var n, pad;
        OneTurn(want, bytesRead, padBufferSize, Contents(), nlattr, rd.Rest());
        panicked, complete, nlattr, n, pad := OneAttribute(nlattr, rd);
        if panicked {
          return;
        }
        bytesRead, padBufferSize := bytesRead + n, padBufferSize + pad;
      }
    }
  }

  lemma NothingRead(r: AttrResult)
    ensures r == Plus(0, 0, r)
  {
  }

  /** One turn taken off what is still to be read. */
  lemma OneTurn(want: AttrResult, n: nat, pad: nat, f: Fields, h: Nlattr, rest: seq<byte>)
    requires want == Plus(n, pad, Attributes(f, h, rest))
    ensures rest == [] ==> want == Stopped(f, [], n, pad)
    ensures rest != [] ==>
      match Step(f, h, rest)
      case StepPanic => want.Panic?
      case Last(f1, rest1, n1, pad1) => want == Stopped(f1, rest1, n + n1, pad + pad1)
      case Next(f1, h1, rest1, n1, pad1) =>
        |rest1| < |rest| && want == Plus(n + n1, pad + pad1, Attributes(f1, h1, rest1))
  {
    hide Step;
  }

  lemma EmptyAfterHeader(rest: seq<byte>)
    ensures rest == [] ==> AfterHeader(rest) == []
  {
  }

  /** Step, told from the outcome of its switch. */
  lemma StepOfBody(f: Fields, h: Nlattr, rest: seq<byte>, b: BodyResult)
    requires rest != [] && b == ReadBody(f, NextHeader(h, rest), AfterHeader(rest))
    ensures b.BodyPanic? ==> Step(f, h, rest).StepPanic?
    ensures b.Body? ==>
      var h1 := NextHeader(h, rest);
      var pad := PadLength(h1.nlaLen, b.attributesBytesRead);
      var n := if pad > 0 then 4 + b.attributesBytesRead + pad else 4;
      Step(f, h, rest) == if pad > |b.rest| then Last(b.fields, [], 4, 0)
                          else if b.complete then Last(b.fields, b.rest[pad..], n, pad)
                          else Next(b.fields, h1, b.rest[pad..], n, pad)
  {
  }

  lemma ZeroImage()
    ensures LittleEndian(0, 4) == Zeros(4)
  {
    assert LittleEndian(0, 2) == [0, 0];
    assert LittleEndian(0, 4) == [0, 0] + LittleEndian(0, 2);
  }

  // ---- The kernel side ----

  datatype Attr = Attr(nlaType: nat, payload: seq<byte>, pad: seq<byte>)

  function Align4(n: nat): (a: nat)
    ensures n <= a < n + 4 && a % 4 == 0
  {
    if n % 4 > 0 then n + 4 - n % 4 else n
  }

  /** A framed attribute: lengths fit 16 bits, padded to 4 bytes, and as long as the Go type it is read into. */
  predicate Framed(a: Attr) {
    && 0 < a.nlaType < 0x1_0000 && 4 + |a.payload| < 0x1_0000
    && 4 + |a.payload| + |a.pad| == Align4(4 + |a.payload|)
    && |a.payload| >= SizeOf(a.nlaType)
  }

  predicate WellFormed(a: Attr) {
    Framed(a) && (a.nlaType == CONG ==> |a.payload| >= 3)
  }

  function EncodeAttr(a: Attr): seq<byte> {
    EncodeNlattr(Nlattr(4 + |a.payload|, a.nlaType)) + a.payload + a.pad
  }

  function EncodeAll(attrs: seq<Attr>): seq<byte> {
    if attrs == [] then [] else EncodeAttr(attrs[0]) + EncodeAll(attrs[1..])
  }

  /** What an attribute says: the struct image at the front of its payload, or the first three
      letters of the algorithm. */
  function Meaning(a: Attr): seq<byte>
    requires WellFormed(a)
  {
    if a.nlaType == CONG then a.payload[..3] else a.payload[..SizeOf(a.nlaType)]
  }

  function Store(f: Fields, a: Attr): Fields
    requires WellFormed(a)
  {
    if Decoded(a.nlaType) then Put(f, a.nlaType, Meaning(a)) else f
  }

  predicate AllWellFormed(attrs: seq<Attr>) {
    forall i :: 0 <= i < |attrs| ==> WellFormed(attrs[i])
  }

  function StoreAll(f: Fields, attrs: seq<Attr>): Fields
    requires AllWellFormed(attrs)
    decreases attrs
  {
    if attrs == [] then f else StoreAll(Store(f, attrs[0]), attrs[1..])
  }

  /** Bytes of payload copied into a variable. */
  function Taken(a: Attr): nat {
    if a.nlaType == CONG then |a.payload| else SizeOf(a.nlaType)
  }

  function Skipped(a: Attr): nat {
    PadLength(4 + |a.payload|, Taken(a))
  }

  function Counted(a: Attr): nat {
    4 + if Skipped(a) > 0 then Taken(a) + Skipped(a) else 0
  }

  function CountedAll(attrs: seq<Attr>): nat {
    if attrs == [] then 0 else Counted(attrs[0]) + CountedAll(attrs[1..])
  }

  function SkippedAll(attrs: seq<Attr>): nat {
    if attrs == [] then 0 else Skipped(attrs[0]) + SkippedAll(attrs[1..])
  }

  /** One framed attribute followed by anything: a short CONG panics, every other attribute is taken whole. */
  lemma DecodeOne(f: Fields, h: Nlattr, a: Attr, tail: seq<byte>)
    requires Framed(a)
    ensures !WellFormed(a) ==> Attributes(f, h, EncodeAttr(a) + tail).Panic?
    ensures WellFormed(a) ==>
      Attributes(f, h, EncodeAttr(a) + tail)
      == Plus(Counted(a), Skipped(a), Attributes(Store(f, a), Nlattr(4 + |a.payload|, a.nlaType), tail))
  {
    var h1 := Nlattr(4 + |a.payload|, a.nlaType);
    var bytes, body := EncodeAttr(a) + tail, a.payload + a.pad + tail;
    HeaderOfOne(h, a, tail);
    StepOfBody(f, h, bytes, ReadBody(f, h1, body));
    if WellFormed(a) {
      BodyOfOne(f, a, tail);
      hide Step, ReadBody, EncodeAttr, WellFormed, Framed, Store;
      assert body[Taken(a)..][Skipped(a)..] == tail;
    }
  }

  lemma HeaderOfOne(h: Nlattr, a: Attr, tail: seq<byte>)
    requires Framed(a)
    ensures var bytes := EncodeAttr(a) + tail;
            bytes != [] && NextHeader(h, bytes) == Nlattr(4 + |a.payload|, a.nlaType)
                && AfterHeader(bytes) == a.payload + a.pad + tail
  {
    var h1 := Nlattr(4 + |a.payload|, a.nlaType);
    NlattrRoundTrip(h1);
    assert (EncodeAttr(a) + tail)[..4] == EncodeNlattr(h1);
  }

  lemma BodyOfOne(f: Fields, a: Attr, tail: seq<byte>)
    requires WellFormed(a)
    ensures var body, n := a.payload + a.pad + tail, Taken(a);
            n + Skipped(a) == |a.payload| + |a.pad|
            && ReadBody(f, Nlattr(4 + |a.payload|, a.nlaType), body) == Body(Store(f, a), body[n..], false, n)
  {
    var body, n := a.payload + a.pad + tail, Taken(a);
    assert |a.payload| >= 3 ==> body[..3] == a.payload[..3];
    assert body[..n] == a.payload[..n];
    assert body[0..] == body;
  }

  lemma {:induction false} RoundTripThen(f: Fields, h: Nlattr, attrs: seq<Attr>)
    requires AllWellFormed(attrs)
    ensures Attributes(f, h, EncodeAll(attrs)) == Stopped(StoreAll(f, attrs), [], CountedAll(attrs), SkippedAll(attrs))
    decreases attrs
  {
    if attrs == [] {
    } else {
      DecodeOne(f, h, attrs[0], EncodeAll(attrs[1..]));
      RoundTripThen(Store(f, attrs[0]), Nlattr(4 + |attrs[0].payload|, attrs[0].nlaType), attrs[1..]);
    }
  }

  /** After a list of attributes, a variable holds the last attribute of its type, or its former value. */
  lemma {:induction false} LastWins(f: Fields, attrs: seq<Attr>, t: nat, last: int)
    requires AllWellFormed(attrs) && Decoded(t)
    requires -1 <= last < |attrs| && (last >= 0 ==> attrs[last].nlaType == t)
    requires forall j :: last < j < |attrs| ==> attrs[j].nlaType != t
    ensures Get(StoreAll(f, attrs), t) == if last >= 0 then Meaning(attrs[last]) else Get(f, t)
    decreases attrs
  {
    if |attrs| == 0 {
    } else {
      if last >= 1 {
        LastWins(Store(f, attrs[0]), attrs[1..], t, last - 1);
      } else {
        LastWins(Store(f, attrs[0]), attrs[1..], t, -1);
      }
    }
  }

  /** The round trip: every byte is consumed and each variable is the meaning of the last attribute of its type. */
  lemma AttributeRoundTrip(f: Fields, attrs: seq<Attr>, t: nat, last: int)
    requires AllWellFormed(attrs) && Decoded(t)
    requires -1 <= last < |attrs| && (last >= 0 ==> attrs[last].nlaType == t)
    requires forall j :: last < j < |attrs| ==> attrs[j].nlaType != t
    ensures var r := Attributes(f, Nlattr(0, 0), EncodeAll(attrs));
            r.Stopped? && r.rest == [] && Get(r.fields, t) == if last >= 0 then Meaning(attrs[last]) else Get(f, t)
  {
    RoundTripThen(f, Nlattr(0, 0), attrs);
    LastWins(f, attrs, t, last);
  }

  /** A struct the kernel wrote, with any surplus tail from a newer kernel, is read back field for field. */
  lemma MeaningOfStruct(t: nat, l: Layout, v: seq<nat>, surplus: seq<byte>, pad: seq<byte>)
    requires t != CONG && Size(l) == SizeOf(t) && Fits(l, v)
    requires WellFormed(Attr(t, Encode(l, v) + surplus, pad))
    ensures Decode(l, Meaning(Attr(t, Encode(l, v) + surplus, pad))) == v
  {
    DecodeOfEncode(l, v);
    assert (Encode(l, v) + surplus)[..Size(l)] == Encode(l, v);
  }

  /** A TCPInfo54 from a newer kernel gives the same fields as the TCPInfo415 it starts with. */
  lemma TcpInfo54ReadAs415(v: seq<nat>)
    requires Fits(TCP_INFO_54, v)
    ensures Size(TCP_INFO_415) == SizeOf(INFO)
    ensures WellFormed(Attr(INFO, Encode(TCP_INFO_54, v), []))
    ensures Decode(TCP_INFO_415, Meaning(Attr(INFO, Encode(TCP_INFO_54, v), []))) == v[..46]
  {
    LayoutSizes();
    LongerStruct(TCP_INFO_415, TCP_INFO_54_EXTRA, v);
    var extra := Encode(TCP_INFO_54_EXTRA, v[46..]);
    WholeWords(INFO, Encode(TCP_INFO_415, v[..46]) + extra);
    hide *;
    MeaningOfStruct(INFO, TCP_INFO_415, v[..46], extra, []);
  }

  lemma LongerStruct(l: Layout, k: Layout, v: seq<nat>)
    requires Fits(l + k, v)
    ensures Fits(l, v[..|l|])
    ensures Encode(l + k, v) == Encode(l, v[..|l|]) + Encode(k, v[|l|..])
  {
    forall i | 0 <= i < |l| ensures v[..|l|][i] < Pow256(l[i]) {
      assert (l + k)[i] == l[i];
    }
    EncodeConcat(l, k, v[..|l|], v[|l|..]);
    assert v == v[..|l|] + v[|l|..];
  }

  lemma WholeWords(t: nat, payload: seq<byte>)
    requires 0 < t < 0x1_0000 && t != CONG && |payload| % 4 == 0 && SizeOf(t) <= |payload| < 0x1_0000 - 4
    ensures WellFormed(Attr(t, payload, []))
  {
  }

  lemma {:induction false} EncodeConcat(l: Layout, k: Layout, v: seq<nat>, w: seq<nat>)
    requires |l| == |v| && |k| == |w|
    ensures Encode(l + k, v + w) == Encode(l, v) + Encode(k, w)
  {
    if |l| == 0 {
      assert l + k == k && v + w == w;
    } else {
      EncodeConcat(l[1..], k, v[1..], w);
      hide LittleEndian, Size;
      assert (l + k)[1..] == l[1..] + k && (v + w)[1..] == v[1..] + w && (v + w)[0] == v[0];
      assert Encode(l + k, v + w) == LittleEndian(v[0], l[0]) + Encode(l[1..] + k, v[1..] + w);
    }
  }

  /** Forward compatibility: a longer payload changes no variable, whatever comes before or after it. */
  lemma ForwardCompatible(f: Fields, h: Nlattr, before: seq<Attr>, a: Attr, surplus: seq<byte>, pad: seq<byte>,
                          after: seq<Attr>)
    requires AllWellFormed(before) && AllWellFormed(after)
    requires WellFormed(a) && WellFormed(Attr(a.nlaType, a.payload + surplus, pad)) && Decoded(a.nlaType)
    ensures var short, long := Attributes(f, h, EncodeAll(before + [a] + after)),
                               Attributes(f, h, EncodeAll(before + [Attr(a.nlaType, a.payload + surplus, pad)]
                                                          + after));
            short.Stopped? && long.Stopped? && short.fields == long.fields && short.rest == long.rest == []
  {
    var b := Attr(a.nlaType, a.payload + surplus, pad);
    SameStore(StoreAll(f, before), a, b);
    RoundTripAround(f, h, before, a, after);
    RoundTripAround(f, h, before, b, after);
  }

  lemma SameStore(f: Fields, a: Attr, b: Attr)
    requires WellFormed(a) && WellFormed(b) && a.nlaType == b.nlaType && a.payload <= b.payload
    ensures Store(f, a) == Store(f, b)
  {
    assert b.payload[..SizeOf(a.nlaType)] == a.payload[..SizeOf(a.nlaType)];
    assert a.nlaType == CONG ==> b.payload[..3] == a.payload[..3];
  }

  lemma RoundTripAround(f: Fields, h: Nlattr, before: seq<Attr>, a: Attr, after: seq<Attr>)
    requires AllWellFormed(before) && AllWellFormed(after) && WellFormed(a)
    ensures var r := Attributes(f, h, EncodeAll(before + [a] + after));
            r.Stopped? && r.rest == [] && r.fields == StoreAll(Store(StoreAll(f, before), a), after)
  {
    assert before + [a] + after == before + ([a] + after);
    RoundTripThen(f, h, before + [a] + after);
    StoreAllConcat(f, before, [a] + after);
    assert ([a] + after)[1..] == after;
  }

  lemma {:induction false} StoreAllConcat(f: Fields, xs: seq<Attr>, ys: seq<Attr>)
    requires AllWellFormed(xs) && AllWellFormed(ys)
    ensures AllWellFormed(xs + ys)
    ensures StoreAll(f, xs + ys) == StoreAll(StoreAll(f, xs), ys)
    decreases xs
  {
    if xs == [] {
      assert xs + ys == ys;
    } else {
      assert (xs + ys)[1..] == xs[1..] + ys;
      StoreAllConcat(Store(f, xs[0]), xs[1..], ys);
    }
  }

  // ---- Byte accounting ----

  /** Payload bytes that were decoded but never counted: those of attributes that needed no skip. */
  function Uncounted(attrs: seq<Attr>): nat {
    if attrs == [] then 0 else (if Skipped(attrs[0]) == 0 then Taken(attrs[0]) else 0) + Uncounted(attrs[1..])
  }

  lemma {:induction false} AccountingSums(attrs: seq<Attr>)
    requires AllWellFormed(attrs)
    ensures |EncodeAll(attrs)| == CountedAll(attrs) + Uncounted(attrs)
  {
    if attrs == [] {
    } else {
      AttrLength(attrs[0]);
      hide WellFormed, EncodeAttr, Counted, Taken, Skipped;
      AccountingSums(attrs[1..]);
    }
  }

  lemma {:induction false} EncodingIsAligned(attrs: seq<Attr>)
    requires AllWellFormed(attrs)
    ensures |EncodeAll(attrs)| % 4 == 0
  {
    if attrs == [] {
    } else {
      AttrLength(attrs[0]);
      EncodingIsAligned(attrs[1..]);
      AddAligned(|EncodeAttr(attrs[0])|, |EncodeAll(attrs[1..])|);
      hide WellFormed, EncodeAttr;
    }
  }

  /** Reading attribute a after a list and before anything moves the cursor by its NlaLen rounded up to 4, from one
      multiple of 4 to the next. */
  lemma CursorMovesAligned(f: Fields, h: Nlattr, before: seq<Attr>, a: Attr, tail: seq<byte>)
    requires AllWellFormed(before) && WellFormed(a)
    ensures var rest := EncodeAttr(a) + tail;
            && rest != []
            && Step(f, h, rest) == Next(Store(f, a), Nlattr(4 + |a.payload|, a.nlaType), tail, Counted(a), Skipped(a))
            && |rest| - |tail| == Align4(4 + |a.payload|)
            && |EncodeAll(before)| % 4 == 0 && (|EncodeAll(before)| + |rest| - |tail|) % 4 == 0
  {
    StepOverOne(f, h, a, tail);
    EncodingIsAligned(before);
    AttrLength(a);
    hide Step, EncodeAttr, EncodeAll, Store, WellFormed;
    AddAligned(|EncodeAll(before)|, Align4(4 + |a.payload|));
  }

  lemma StepOverOne(f: Fields, h: Nlattr, a: Attr, tail: seq<byte>)
    requires WellFormed(a)
    ensures EncodeAttr(a) + tail != []
    ensures Step(f, h, EncodeAttr(a) + tail)
            == Next(Store(f, a), Nlattr(4 + |a.payload|, a.nlaType), tail, Counted(a), Skipped(a))
  {
    var body := a.payload + a.pad + tail;
    HeaderOfOne(h, a, tail);
    BodyOfOne(f, a, tail);
    hide ReadBody, EncodeAttr, WellFormed, Store;
    assert body[Taken(a)..][Skipped(a)..] == tail;
  }

  lemma AddAligned(m: nat, n: nat)
    requires m % 4 == 0 && n % 4 == 0
    ensures (m + n) % 4 == 0
  {
  }

  lemma {:induction false} NothingUncounted(attrs: seq<Attr>)
    ensures Uncounted(attrs) == 0 <==> forall i :: 0 <= i < |attrs| && Taken(attrs[i]) > 0 ==> Skipped(attrs[i]) > 0
  {
    hide Taken, Skipped;
    if attrs == [] {
    } else {
      var rest := attrs[1..];
      NothingUncounted(rest);
      assert forall i :: 0 <= i < |rest| ==> rest[i] == attrs[i + 1];
      assert forall i :: 1 <= i < |attrs| ==> attrs[i] == rest[i - 1];
    }
  }

  lemma AttrLength(a: Attr)
    requires WellFormed(a)
    ensures |EncodeAttr(a)| == Taken(a) + Skipped(a) + 4 && |EncodeAttr(a)| % 4 == 0
    ensures Counted(a) == |EncodeAttr(a)| - if Skipped(a) == 0 then Taken(a) else 0
  {
    BodyOfOne(ZERO_FIELDS, a, []);
  }

  /** bytesRead falls short of the cursor by exactly the decoded payloads that needed no padding. */
  lemma ByteAccounting(f: Fields, attrs: seq<Attr>)
    requires AllWellFormed(attrs)
    ensures var r := Attributes(f, Nlattr(0, 0), EncodeAll(attrs));
            && r.Stopped? && |EncodeAll(attrs)| == r.bytesRead + Uncounted(attrs)
            && r.padBufferSize == SkippedAll(attrs)
            && (r.bytesRead == |EncodeAll(attrs)| <==> forall i :: 0 <= i < |attrs| && Taken(attrs[i]) > 0 ==>
                Skipped(attrs[i]) > 0)
    ensures |EncodeAll(attrs)| % 4 == 0
  {
    RoundTripThen(f, Nlattr(0, 0), attrs);
    AccountingSums(attrs);
    NothingUncounted(attrs);
    EncodingIsAligned(attrs);
  }

  // ---- Panics ----

  /** Among framed lists, exactly those with a CONG payload under three bytes panic. */
  lemma {:induction false} PanicIff(f: Fields, h: Nlattr, attrs: seq<Attr>)
    requires forall i :: 0 <= i < |attrs| ==> Framed(attrs[i])
    ensures Attributes(f, h, EncodeAll(attrs)).Panic? <==>
      exists i :: 0 <= i < |attrs| && attrs[i].nlaType == CONG && |attrs[i].payload| < 3
    decreases attrs
  {
    if attrs == [] {
    } else {
      var a, rest := attrs[0], attrs[1..];
      DecodeOne(f, h, a, EncodeAll(rest));
      if WellFormed(a) {
        PanicIff(Store(f, a), Nlattr(4 + |a.payload|, a.nlaType), rest);
        assert forall i :: 0 <= i < |rest| ==> rest[i] == attrs[i + 1];
        assert forall i :: 1 <= i < |attrs| ==> attrs[i] == rest[i - 1];
      }
    }
  }

  predicate ShortCong(h: Nlattr) {
    h.nlaType == CONG && h.nlaLen < 7
  }

  /** Four consecutive bytes that read as a CONG header shorter than seven. */
  predicate ShortCongAt(rest: seq<byte>, i: nat) {
    i + 4 <= |rest| && ShortCong(DecodeNlattr(rest[i..i + 4]))
  }

  /** On arbitrary bytes: no panic unless four consecutive bytes read as a CONG header shorter than seven. */
  lemma {:induction false} PanicNeedsShortCong(f: Fields, h: Nlattr, rest: seq<byte>) returns (i: nat)
    requires Attributes(f, h, rest).Panic? && !ShortCong(h)
    ensures ShortCongAt(rest, i)
    decreases |rest|
  {
    hide *;
    PanicStep(f, h, rest);
    i := 0;
    if !Step(f, h, rest).StepPanic? {
      var k := StepSuffix(f, h, rest);
      var r := Step(f, h, rest);
      var j := PanicNeedsShortCong(r.fields, r.h, r.rest);
      i := k + j;
      ShiftedCong(rest, r.rest, k, j);
    }
  }

  predicate IsSuffix(tail: seq<byte>, s: seq<byte>, k: nat) {
    k <= |s| && tail == s[k..]
  }

  lemma ShiftedCong(rest: seq<byte>, tail: seq<byte>, k: nat, j: nat)
    requires IsSuffix(tail, rest, k) && ShortCongAt(tail, j)
    ensures ShortCongAt(rest, k + j)
  {
    SliceOfSuffix(rest, k, j);
    hide DecodeNlattr;
  }

  lemma PanicStep(f: Fields, h: Nlattr, rest: seq<byte>)
    requires Attributes(f, h, rest).Panic? && !ShortCong(h)
    ensures rest != []
    ensures if Step(f, h, rest).StepPanic? then ShortCongAt(rest, 0) else !ShortCong(NextHeader(h, rest))
  {
    assert |rest| >= 4 ==> rest[..4] == rest[0..4];
  }

  lemma StepSuffix(f: Fields, h: Nlattr, rest: seq<byte>) returns (k: nat)
    requires rest != [] && Attributes(f, h, rest).Panic? && !Step(f, h, rest).StepPanic?
    ensures var r := Step(f, h, rest);
            r.Next? && Attributes(r.fields, r.h, r.rest).Panic? && r.h == NextHeader(h, rest)
                && IsSuffix(r.rest, rest, k)
            && |r.rest| < |rest|
  {
    var r, after := Step(f, h, rest), AfterHeader(rest);
    assert r.Next?;
    assert Attributes(r.fields, r.h, r.rest).Panic?;
    var b := ReadBody(f, NextHeader(h, rest), after);
    StepOfBody(f, h, rest, b);
    var got, pad := |after| - |b.rest|, PadLength(r.h.nlaLen, b.attributesBytesRead);
    BodySuffix(f, r.h, after);
    hide *;
    assert b.rest == after[got..];
    k := |rest| - |after| + got + pad;
    HeaderSuffix(rest);
    DropDrop(rest, |rest| - |after|, got);
    DropDrop(rest, |rest| - |after| + got, pad);
    SuffixIs(r.rest, rest, k);
  }

  lemma SuffixIs(tail: seq<byte>, s: seq<byte>, k: nat)
    requires k <= |s| && tail == s[k..]
    ensures IsSuffix(tail, s, k)
  {
  }

  lemma HeaderSuffix(rest: seq<byte>)
    ensures |AfterHeader(rest)| <= |rest| && AfterHeader(rest) == rest[|rest| - |AfterHeader(rest)|..]
  {
  }

  lemma BodySuffix(f: Fields, h: Nlattr, rest: seq<byte>)
    ensures var b := ReadBody(f, h, rest); b.Body? ==> |b.rest| <= |rest| && b.rest == rest[|rest| - |b.rest|..]
  {
  }

  lemma SliceOfSuffix(s: seq<byte>, k: nat, j: nat)
    requires k <= |s| && j + 4 <= |s[k..]|
    ensures s[k..][j..j + 4] == s[k + j..k + j + 4]
  {
  }

  lemma DropDrop(s: seq<byte>, i: nat, j: nat)
    requires i + j <= |s|
    ensures s[i..][j..] == s[i + j..]
  {
  }

  /** Whether the loop panics, and how far it reads, never depends on the variables it writes. */
  lemma {:induction false} ControlIgnoresFields(f: Fields, g: Fields, h: Nlattr, rest: seq<byte>)
    ensures var r, s := Attributes(f, h, rest), Attributes(g, h, rest);
            && r.Panic? == s.Panic?
            && (r.Stopped? ==> (r.rest, r.bytesRead, r.padBufferSize) == (s.rest, s.bytesRead, s.padBufferSize))
    decreases |rest|
  {
    hide Step;
    if rest != [] {
      StepControl(f, g, h, rest);
      var r := Step(f, h, rest);
      if r.Next? {
        ControlIgnoresFields(r.fields, Step(g, h, rest).fields, r.h, r.rest);
      }
    }
  }

  lemma StepControl(f: Fields, g: Fields, h: Nlattr, rest: seq<byte>)
    requires rest != []
    ensures var r, s := Step(f, h, rest), Step(g, h, rest);
            && r.StepPanic? == s.StepPanic? && r.Next? == s.Next?
            && (!r.StepPanic? ==> r.rest == s.rest && r.bytesRead == s.bytesRead && r.pad == s.pad)
            && (r.Next? ==> r.h == s.h)
  {
    var b, c := ReadBody(f, NextHeader(h, rest), AfterHeader(rest)),
        ReadBody(g, NextHeader(h, rest), AfterHeader(rest));
    assert b.Body? == c.Body?;
    assert b.Body? ==> b.rest == c.rest && b.complete == c.complete && b.attributesBytesRead == c.attributesBytesRead;
  }

  /** The window scale and flag splits lose nothing of the packed bytes. */
  lemma SplitsAreExact(x: nat)
    requires x < 256
    ensures x == 16 * (x / 16) + x % 16 && x / 16 < 16
    ensures x == 2 * (x / 2) + x % 2
  {
  }
}
