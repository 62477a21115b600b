/** Little-endian integers and fixed-width struct layouts, as Go's encoding/binary reads and writes them. */
module Bytes {

  type byte = x: nat | x < 256

  function Pow256(w: nat): (p: nat)
    ensures p > 0
  {
    if w == 0 then 1 else 256 * Pow256(w - 1)
  }

  /** The w low bytes of v, least significant first. */
  function LittleEndian(v: nat, w: nat): (b: seq<byte>)
    ensures |b| == w
  {
    if w == 0 then [] else [v % 256] + LittleEndian(v / 256, w - 1)
  }

  function Value(b: seq<byte>): (v: nat)
    ensures v < Pow256(|b|)
  {
    if b == [] then 0 else b[0] + 256 * Value(b[1..])
  }

  lemma {:induction false} ValueOfLittleEndian(v: nat, w: nat)
    requires v < Pow256(w)
    ensures Value(LittleEndian(v, w)) == v
  {
    if w == 0 {
    } else {
      ValueOfLittleEndian(v / 256, w - 1);
      assert LittleEndian(v, w)[1..] == LittleEndian(v / 256, w - 1);
    }
  }

  /** Truncation: w bytes keep exactly v modulo 256^w. */
  lemma {:induction false} ValueTruncates(v: nat, w: nat)
    ensures Value(LittleEndian(v, w)) == v % Pow256(w)
  {
    if w == 0 {
    } else {
      ValueTruncates(v / 256, w - 1);
      assert LittleEndian(v, w)[1..] == LittleEndian(v / 256, w - 1);
      ModStep(v, Pow256(w - 1));
    }
  }

  lemma ModStep(v: nat, p: nat)
    requires p > 0
    ensures v % 256 + 256 * ((v / 256) % p) == v % (256 * p)
  {
    var q, r := (v / 256) / p, (v / 256) % p;
    assert v == 256 * (q * p + r) + v % 256;
    assert 256 * (q * p + r) == (256 * p) * q + 256 * r;
    var s := 256 * r + v % 256;
    assert 256 * r <= 256 * (p - 1);
    DivisionIsUnique(v, 256 * p, q, s);
  }

  lemma DivisionIsUnique(v: nat, d: nat, q: nat, r: nat)
    requires r < d && v == d * q + r
    ensures v / d == q && v % d == r
  {
    var k := v / d - q;
    assert v == d * (v / d) + v % d;
    assert d * k == r - v % d;
    assert k >= 1 ==> d * k >= d;
    assert k <= -1 ==> d * k + d <= 0;
  }

  lemma {:induction false} LittleEndianOfValue(b: seq<byte>)
    ensures LittleEndian(Value(b), |b|) == b
  {
    if b == [] {
    } else {
      LittleEndianOfValue(b[1..]);
      assert Value(b) % 256 == b[0] && Value(b) / 256 == Value(b[1..]);
      assert b == [b[0]] + b[1..];
    }
  }

  // ---- Struct layouts: the widths of a Go struct's integer fields, in declaration order ----

  type Layout = seq<nat>

  function Size(l: Layout): nat {
    if l == [] then 0 else l[0] + Size(l[1..])
  }

  predicate Fits(l: Layout, v: seq<nat>) {
    |v| == |l| && forall i :: 0 <= i < |l| ==> v[i] < Pow256(l[i])
  }

  function Decode(l: Layout, b: seq<byte>): (v: seq<nat>)
    requires |b| == Size(l)
    ensures |v| == |l| && Fits(l, v)
  {
    if l == [] then []
    else
      var head, tail := Value(b[..l[0]]), Decode(l[1..], b[l[0]..]);
      assert forall i :: 1 <= i < |l| ==> ([head] + tail)[i] == tail[i - 1] && l[i] == l[1..][i - 1];
      [head] + tail
  }

  function Encode(l: Layout, v: seq<nat>): (b: seq<byte>)
    requires |v| == |l|
    ensures |b| == Size(l)
  {
    if l == [] then [] else LittleEndian(v[0], l[0]) + Encode(l[1..], v[1..])
  }

  lemma {:induction false} DecodeOfEncode(l: Layout, v: seq<nat>)
    requires Fits(l, v)
    ensures Decode(l, Encode(l, v)) == v
  {
    if l == [] {
    } else {
      var b := Encode(l, v);
      assert b[..l[0]] == LittleEndian(v[0], l[0]) && b[l[0]..] == Encode(l[1..], v[1..]);
      ValueOfLittleEndian(v[0], l[0]);
      DecodeOfEncode(l[1..], v[1..]);
      assert v == [v[0]] + v[1..];
    }
  }

  /** A struct image carries nothing but its fields: reading it loses no byte. */
  lemma {:induction false} EncodeOfDecode(l: Layout, b: seq<byte>)
    requires |b| == Size(l)
    ensures Encode(l, Decode(l, b)) == b
  {
    if l == [] {
    } else {
      var head, tail := b[..l[0]], b[l[0]..];
      LittleEndianOfValue(head);
      EncodeOfDecode(l[1..], tail);
      hide LittleEndian, Value, Fits;
      assert Decode(l, b) == [Value(head)] + Decode(l[1..], tail);
      assert Decode(l, b)[1..] == Decode(l[1..], tail);
      assert b == head + tail;
    }
  }

  function Repeat(n: nat, w: nat): (l: Layout)
    ensures |l| == n
    ensures forall i :: 0 <= i < n ==> l[i] == w
  {
    seq(n, i => w)
  }

  lemma {:induction false} SizeOfRepeat(n: nat, w: nat)
    ensures Size(Repeat(n, w)) == n * w
  {
    if n > 0 {
      assert Repeat(n, w)[1..] == Repeat(n - 1, w);
      SizeOfRepeat(n - 1, w);
      assert n * w == w + (n - 1) * w;
    }
  }

  lemma {:induction false} SizeOfConcat(a: Layout, b: Layout)
    ensures Size(a + b) == Size(a) + Size(b)
  {
    if a == [] {
      assert a + b == b;
    } else {
      SizeOfConcat(a[1..], b);
      assert (a + b)[1..] == a[1..] + b;
    }
  }

  function Zeros(n: nat): (z: seq<byte>)
    ensures |z| == n
    ensures forall i :: 0 <= i < n ==> z[i] == 0
  {
    seq(n, i => 0)
  }
}
