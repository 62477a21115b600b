/** The attribute loop byte by byte, on whole lists and on lists the message cuts short. */
module AttributeBytes {
  import opened Bytes
  import opened InetDiag
  import opened Attributes
  import Wire

  /** The attribute with NlaLen in bytes 0 and 1, type in 2 and 3, payload, and alignment. */
  lemma AttributeOnWire(a: Attr)
    requires Framed(a)
    ensures var b := EncodeAttr(a);
            && |b| % 4 == 0 && |b| == 4 + |a.payload| + |a.pad|
            && b[0] as nat + 256 * b[1] as nat == 4 + |a.payload| && b[2] as nat + 256 * b[3] as nat == a.nlaType
            && b[4..4 + |a.payload|] == a.payload
  {
    var h := Nlattr(4 + |a.payload|, a.nlaType);
    NlattrRoundTrip(h);
    Wire.NlattrOnWire(EncodeNlattr(h));
    hide EncodeNlattr, DecodeNlattr;
  }

  /** Payload bytes read for a type: a struct's size, all of a CONG, nothing of the types passed over. */
  ghost predicate Reads(t: nat, nlaLen: nat, got: nat) {
    got == if t == 1 then 16 else if t == 2 then 192 else if t == 4 then nlaLen - 4 else if t in {5, 6, 8} then 1
           else if t == 7 then 36 else if t in {15, 17} then 4 else if t == 16 then 20 else 0
  }

  /** Bytes skipped behind them: the rest of the payload, then up to the next multiple of 4. */
  ghost predicate Skips(nlaLen: nat, got: nat, gap: nat) {
    var surplus := if nlaLen > 4 + got then nlaLen - 4 - got else 0;
    surplus <= gap < surplus + 4 && (nlaLen + gap - surplus) % 4 == 0
  }

  lemma PadSkips(nlaLen: nat, got: nat, gap: nat)
    requires Skips(nlaLen, got, gap)
    ensures PadLength(nlaLen, got) == gap
  {
  }

  /** The variable a type is read into. */
  function Assigned(f: Fields, t: nat, v: seq<byte>): Fields {
    if t == 1 then f.(meminfo := v) else if t == 2 then f.(tcpinfo := v)
    else if t == 4 then f.(congestionAlgorithm := v)
    else if t == 5 then f.(typeOfService := v) else if t == 6 then f.(trafficClass := v)
    else if t == 7 then f.(skmeminfo := v) else if t == 8 then f.(shutdownState := v) else if t == 15 then f.(mark := v)
    else if t == 16 then f.(bbrinfo := v) else if t == 17 then f.(classID := v) else f
  }

  /** One turn over any bytes that hold a header. Only an attribute whose payload, surplus and alignment are all there
      lets the loop go on, and only one that needed a skip has its payload counted. */
  lemma TurnOnWire(f: Fields, h: Nlattr, rest: seq<byte>, got: nat, gap: nat)
    requires |rest| >= 4
    requires var nlaLen, t := rest[0] as nat + 256 * rest[1] as nat, rest[2] as nat + 256 * rest[3] as nat;
             ((t == 4 && nlaLen < 4) || Reads(t, nlaLen, got)) && Skips(nlaLen, got, gap)
    ensures var nlaLen, t := rest[0] as nat + 256 * rest[1] as nat, rest[2] as nat + 256 * rest[3] as nat;
            var body, n := rest[4..], if gap > 0 then 4 + got + gap else 4;
            Step(f, h, rest)
            == if t == 4 && nlaLen < 7 then StepPanic
               else if got > |body| then Last(if t == 4 then Assigned(f, 4, Zeros(3)) else f, [], 4, 0)
               else
                 var g := Assigned(f, t, if t == 4 then body[..3] else body[..got]);
                 if got + gap > |body| then Last(g, [], 4, 0)
                 else if t == 0 then Last(g, body[gap..], n, gap)
                 else Next(g, Nlattr(nlaLen, t), body[got + gap..], n, gap)
  {
    hide *;
    HeaderOnWire(h, rest);
    TurnOfHeader(f, h, rest, rest[0] as nat + 256 * rest[1] as nat, rest[2] as nat + 256 * rest[3] as nat, got, gap);
  }

  lemma TurnOfHeader(f: Fields, h: Nlattr, rest: seq<byte>, nlaLen: nat, t: nat, got: nat, gap: nat)
    requires |rest| >= 4 && NextHeader(h, rest) == Nlattr(nlaLen, t) && AfterHeader(rest) == rest[4..]
    requires ((t == 4 && nlaLen < 4) || Reads(t, nlaLen, got)) && Skips(nlaLen, got, gap)
    ensures var body, n := rest[4..], if gap > 0 then 4 + got + gap else 4;
            Step(f, h, rest)
            == if t == 4 && nlaLen < 7 then StepPanic
               else if got > |body| then Last(if t == 4 then Assigned(f, 4, Zeros(3)) else f, [], 4, 0)
               else
                 var g := Assigned(f, t, if t == 4 then body[..3] else body[..got]);
                 if got + gap > |body| then Last(g, [], 4, 0)
                 else if t == 0 then Last(g, body[gap..], n, gap)
                 else Next(g, Nlattr(nlaLen, t), body[got + gap..], n, gap)
  {
    hide *;
    var body := rest[4..];
    var b := ReadBody(f, Nlattr(nlaLen, t), body);
    StepOfBody(f, h, rest, b);
    if t == 4 && nlaLen < 7 {
      ShortCongPanics(f, nlaLen, body);
    } else {
      BodyOnWire(f, nlaLen, t, body, got);
      ReadsAny(t, nlaLen, got);
      PadSkips(nlaLen, got, gap);
      if got + gap <= |body| {
        DropDrop(body, got, gap);
      }
    }
  }

  lemma ReadsAny(t: nat, nlaLen: nat, got: nat)
    requires Reads(t, nlaLen, got)
    ensures t == 0 ==> got == 0
    ensures t == 4 ==> got == nlaLen - 4
  {
  }

  lemma ShortCongPanics(f: Fields, nlaLen: nat, body: seq<byte>)
    requires nlaLen < 7
    ensures ReadBody(f, Nlattr(nlaLen, 4), body).BodyPanic?
  {
  }

  lemma HeaderOnWire(h: Nlattr, rest: seq<byte>)
    requires |rest| >= 4
    ensures NextHeader(h, rest) == Nlattr(rest[0] as nat + 256 * rest[1] as nat, rest[2] as nat + 256 * rest[3] as nat)
    ensures AfterHeader(rest) == rest[4..]
  {
    Wire.NlattrOnWire(rest[..4]);
    hide DecodeNlattr;
  }

  lemma BodyOnWire(f: Fields, nlaLen: nat, t: nat, body: seq<byte>, got: nat)
    requires Reads(t, nlaLen, got) && (t == 4 ==> nlaLen >= 7)
    ensures var b := ReadBody(f, Nlattr(nlaLen, t), body);
            && b.Body? && b.attributesBytesRead == got
            && b.fields == (if got > |body| then if t == 4 then Assigned(f, 4, Zeros(3)) else f
                            else Assigned(f, t, if t == 4 then body[..3] else body[..got]))
            && b.rest == (if got > |body| then [] else body[got..])
            && (b.complete <==> got > |body| || t == 0)
  {
    AssignedIsPut(f, t, if got > |body| then Zeros(3) else if t == 4 then body[..3] else body[..got]);
    hide Put;
  }

  lemma AssignedIsPut(f: Fields, t: nat, v: seq<byte>)
    ensures Put(f, t, v) == Assigned(f, t, v)
  {
  }

  // ---- Cut lists ----

  function LastHeader(h: Nlattr, attrs: seq<Attr>): Nlattr {
    if attrs == [] then h else var a := attrs[|attrs| - 1]; Nlattr(4 + |a.payload|, a.nlaType)
  }

  /** A list of attributes is taken off the front, whatever follows it. */
  lemma {:induction false} ListThen(f: Fields, h: Nlattr, attrs: seq<Attr>, tail: seq<byte>)
    requires AllWellFormed(attrs)
    ensures Attributes.Attributes(f, h, EncodeAll(attrs) + tail)
         == Plus(CountedAll(attrs), SkippedAll(attrs),
                 Attributes.Attributes(StoreAll(f, attrs), LastHeader(h, attrs), tail))
    decreases attrs
  {
    hide *;
    if attrs == [] {
      EmptyList(f, h);
      assert [] + tail == tail;
      NothingRead(Attributes.Attributes(f, h, tail));
    } else {
      ListStep(f, h, attrs);
      var a, later := attrs[0], attrs[1..];
      var h1, g := Nlattr(4 + |a.payload|, a.nlaType), Store(f, a);
      DecodeOne(f, h, a, EncodeAll(later) + tail);
      ListThen(g, h1, later, tail);
      assert EncodeAll(attrs) + tail == EncodeAttr(a) + (EncodeAll(later) + tail);
      var r := Attributes.Attributes(StoreAll(f, attrs), LastHeader(h, attrs), tail);
      PlusPlus(Counted(a), Skipped(a), CountedAll(later), SkippedAll(later), r);
    }
  }

  lemma EmptyList(f: Fields, h: Nlattr)
    ensures EncodeAll([]) == [] && CountedAll([]) == SkippedAll([]) == 0 && LastHeader(h, []) == h
    ensures AllWellFormed([]) && StoreAll(f, []) == f
  {
  }

  lemma ListStep(f: Fields, h: Nlattr, attrs: seq<Attr>)
    requires AllWellFormed(attrs) && attrs != []
    ensures var a, later := attrs[0], attrs[1..];
            && Framed(a) && WellFormed(a) && AllWellFormed(later)
            && EncodeAll(attrs) == EncodeAttr(a) + EncodeAll(later)
            && CountedAll(attrs) == Counted(a) + CountedAll(later)
            && SkippedAll(attrs) == Skipped(a) + SkippedAll(later)
            && StoreAll(f, attrs) == StoreAll(Store(f, a), later)
            && LastHeader(h, attrs) == LastHeader(Nlattr(4 + |a.payload|, a.nlaType), later)
  {
    assert WellFormed(attrs[0]);
    hide EncodeAttr, Counted, Skipped, Store;
  }

  lemma PlusPlus(n: nat, p: nat, k: nat, q: nat, r: AttrResult)
    ensures Plus(n, p, Plus(k, q, r)) == Plus(n + k, p + q, r)
  {
  }

  /** Fewer than four bytes left: the header variable of the attribute before is used once more, on nothing. */
  lemma ShortHeader(f: Fields, h: Nlattr, rest: seq<byte>)
    requires 0 < |rest| < 4
    ensures Attributes.Attributes(f, h, rest)
         == if h.nlaType == 4 && h.nlaLen < 7 then Panic
            else Stopped(if h.nlaType == 4 then Assigned(f, 4, Zeros(3)) else f, [], 4, 0)
  {
    AssignedIsPut(f, 4, Zeros(3));
    assert Attributes.Attributes(f, h, []) == Stopped(f, [], 0, 0);
    hide Put;
  }

  /** A message cut inside an attribute: everything before it is kept, its own variable is set only if its payload is
      all there, and of the cut attribute four bytes are counted. A cut CONG overwrites the algorithm with zeros, and
      so does a stump of one to three bytes behind a CONG. */
  lemma CutList(f: Fields, attrs: seq<Attr>, a: Attr, k: nat)
    requires AllWellFormed(attrs) && WellFormed(a) && 0 < k < |EncodeAttr(a)|
    ensures var g := StoreAll(f, attrs);
            var zeroed := if k < 4 then attrs != [] && attrs[|attrs| - 1].nlaType == 4
                          else a.nlaType == 4 && k < 4 + Taken(a);
            Attributes.Attributes(f, Nlattr(0, 0), EncodeAll(attrs) + EncodeAttr(a)[..k])
            == Stopped(if zeroed then Assigned(g, 4, Zeros(3)) else if k < 4 + Taken(a) then g else Store(g, a), [],
                       CountedAll(attrs) + 4, SkippedAll(attrs))
  {
    hide *;
    var g, tail := StoreAll(f, attrs), EncodeAttr(a)[..k];
    ListThen(f, Nlattr(0, 0), attrs, tail);
    var h := LastHeader(Nlattr(0, 0), attrs);
    LastHeaderIs(attrs);
    if k < 4 {
      ShortHeader(g, h, tail);
    } else {
      CutOne(g, h, a, k);
    }
    PlusIs(CountedAll(attrs), SkippedAll(attrs), Attributes.Attributes(g, h, tail));
  }

  lemma PlusIs(n: nat, pad: nat, r: AttrResult)
    ensures r.Stopped? ==> Plus(n, pad, r) == Stopped(r.fields, r.rest, n + r.bytesRead, pad + r.padBufferSize)
  {
  }

  lemma LastHeaderIs(attrs: seq<Attr>)
    requires AllWellFormed(attrs)
    ensures var h := LastHeader(Nlattr(0, 0), attrs);
            && !(h.nlaType == 4 && h.nlaLen < 7)
            && (h.nlaType == 4 <==> attrs != [] && attrs[|attrs| - 1].nlaType == 4)
  {
    if attrs != [] {
      assert WellFormed(attrs[|attrs| - 1]);
    }
  }

  lemma CutOne(f: Fields, h: Nlattr, a: Attr, k: nat)
    requires WellFormed(a) && 4 <= k < |EncodeAttr(a)|
    ensures Attributes.Attributes(f, h, EncodeAttr(a)[..k])
         == Stopped(if k < 4 + Taken(a) then if a.nlaType == 4 then Assigned(f, 4, Zeros(3)) else f else Store(f, a),
                    [], 4, 0)
  {
    var rest, h1 := EncodeAttr(a)[..k], Nlattr(4 + |a.payload|, a.nlaType);
    CutHeader(h, a, k);
    hide *;
    var b := ReadBody(f, h1, rest[4..]);
    CutBody(f, a, k);
    StepOfBody(f, h, rest, b);
    LastStops(f, h, rest);
  }

  lemma CutHeader(h: Nlattr, a: Attr, k: nat)
    requires WellFormed(a) && 4 <= k < |EncodeAttr(a)|
    ensures var rest := EncodeAttr(a)[..k];
            && rest != [] && NextHeader(h, rest) == Nlattr(4 + |a.payload|, a.nlaType) && AfterHeader(rest) == rest[4..]
            && k < 4 + Taken(a) + PadLength(4 + |a.payload|, Taken(a))
  {
    AttributeOnWire(a);
    HeaderOnWire(h, EncodeAttr(a)[..k]);
    AttrLength(a);
    hide EncodeAttr, WellFormed, NextHeader, AfterHeader, Taken, PadLength;
  }

  lemma LastStops(f: Fields, h: Nlattr, rest: seq<byte>)
    requires rest != []
    ensures var r := Step(f, h, rest);
            r.Last? ==> Attributes.Attributes(f, h, rest) == Stopped(r.fields, r.rest, r.bytesRead, r.pad)
  {
    hide Step;
  }

  lemma CutBody(f: Fields, a: Attr, k: nat)
    requires WellFormed(a) && 4 <= k < |EncodeAttr(a)|
    ensures var b := ReadBody(f, Nlattr(4 + |a.payload|, a.nlaType), EncodeAttr(a)[..k][4..]);
            && b.Body? && b.attributesBytesRead == Taken(a)
            && (if k < 4 + Taken(a) then
                  b.complete && b.rest == [] && b.fields == if a.nlaType == 4 then Assigned(f, 4, Zeros(3)) else f
                else |b.rest| == k - 4 - Taken(a) && !b.complete && b.fields == Store(f, a))
  {
    var body := EncodeAttr(a)[..k][4..];
    AssignedIsPut(f, 4, Zeros(3));
    assert body == (a.payload + a.pad)[..k - 4];
    hide EncodeAttr, Put;
    assert k >= 4 + Taken(a) ==> body[..Taken(a)] == a.payload[..Taken(a)];
    assert k >= 4 + Taken(a) && Taken(a) >= 3 ==> body[..3] == a.payload[..3];
  }
}
