/** The 1-in-m selection shared by the netlinkers (samplingModulus) and the inetdiagers (inetdiagerReportModulus). */
module Sampling {
  import opened Bytes

  /** The i-th candidate passes. Go's remainder of a non-negative i by m is Dafny's, whatever the sign of m. */
  predicate Selected(i: nat, m: int)
    requires m != 0
  {
    m == 1 || i % m == 1
  }

  /** The sign of the modulus does not matter: 1 takes all, -1 none, any other takes 1, |m| + 1, 2 |m| + 1 and so on. */
  lemma SelectedIff(i: nat, m: int)
    requires m != 0
    ensures m == 1 ==> Selected(i, m)
    ensures m == -1 ==> !Selected(i, m)
    ensures var d := if m < 0 then -m else m;
            d >= 2 ==> (Selected(i, m) <==> exists q: nat :: i == q * d + 1)
  {
    var d := if m < 0 then -m else m;
    assert i % m == i % d;
    if d >= 2 {
      if i % d == 1 {
        var q := i / d;
        assert q * d == d * (i / d) == i - 1;
      }
      forall q: nat | i == q * d + 1 ensures i % d == 1 {
        assert d * q == q * d;
        DivisionIsUnique(i, d, q, 1);
      }
    }
  }

  /** How many of the first n candidates pass. */
  function SelectedCount(n: nat, m: int): nat
    requires m != 0
  {
    if n == 0 then 0 else SelectedCount(n - 1, m) + (if Selected(n - 1, m) then 1 else 0)
  }

  /** s is the number of selections among n candidates: the quotient (n + m - 2) / m, without division. */
  lemma {:induction false} SelectedCountBracket(n: nat, m: int)
    requires m >= 2
    ensures m * SelectedCount(n, m) <= n + m - 2 < m * SelectedCount(n, m) + m
  {
    if n > 0 {
      SelectedCountBracket(n - 1, m);
      RemainderInBracket(n - 1, m, SelectedCount(n - 1, m));
      assert m * (SelectedCount(n - 1, m) + 1) == m * SelectedCount(n - 1, m) + m;
    }
  }

  lemma RemainderInBracket(v: nat, m: int, s: nat)
    requires m >= 2 && m * s <= v + m - 2 < m * s + m
    ensures v % m == 1 <==> v == m * s + 1
  {
    var d := v - m * s;
    if d >= 0 {
      DivisionIsUnique(v, m, s, d);
    } else {
      assert s > 0;
      assert m * (s - 1) == m * s - m;
      DivisionIsUnique(v, m, s - 1, m + d);
    }
  }

  lemma SelectedCountClosedForm(n: nat, m: int)
    requires m >= 2
    ensures SelectedCount(n, m) == (n + m - 2) / m
  {
    SelectedCountBracket(n, m);
    DivisionIsUnique(n + m - 2, m, SelectedCount(n, m), n + m - 2 - m * SelectedCount(n, m));
  }

  lemma {:induction false} AllSelected(n: nat)
    ensures SelectedCount(n, 1) == n
  {
    if n > 0 { AllSelected(n - 1); }
  }

  /** Total selections of independent counters with the given candidate counts. */
  function SelectedTotal(counts: seq<nat>, m: int): nat
    requires m != 0
  {
    if counts == [] then 0 else SelectedCount(counts[0], m) + SelectedTotal(counts[1..], m)
  }

  function Sum(counts: seq<nat>): nat {
    if counts == [] then 0 else counts[0] + Sum(counts[1..])
  }

  /** Sampling with k independent counters: between (N - k) / m and (N + k(m-2)) / m of N candidates pass. */
  lemma {:induction false} SelectedTotalBounds(counts: seq<nat>, m: int)
    requires m >= 1
    ensures m == 1 ==> SelectedTotal(counts, m) == Sum(counts)
    ensures m >= 2 ==> Sum(counts) - |counts| <= m * SelectedTotal(counts, m) <= Sum(counts) + |counts| * (m - 2)
  {
    if counts == [] {
    } else {
      SelectedTotalBounds(counts[1..], m);
      if m >= 2 {
        SelectedCountBracket(counts[0], m);
        AddBounds(|counts| - 1, m, SelectedCount(counts[0], m), SelectedTotal(counts[1..], m));
      } else {
        AllSelected(counts[0]);
      }
    }
  }

  lemma AddBounds(k: nat, m: int, s: nat, t: nat)
    ensures m * (s + t) == m * s + m * t
    ensures (k + 1) * (m - 2) == k * (m - 2) + (m - 2)
  {
  }
}
