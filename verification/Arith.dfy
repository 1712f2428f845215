/** Division facts the rings rest on. */
module Arith {

  /** The least multiple of `a` from v on, counted up so that no proof about a ring needs a
      division; AlignUpIsRounding ties it to the usual expression. */
  function AlignUp(v: nat, a: nat): (r: nat)
    requires a > 0
    ensures v <= r < v + a
  {
    if v == 0 then 0 else if v <= a then a else a + AlignUp(v - a, a)
  }

  lemma {:induction false} AlignUpIsRounding(v: nat, a: nat)
    requires a > 0
    ensures AlignUp(v, a) == (v + a - 1) / a * a
    ensures AlignUp(v, a) == v <==> v % a == 0
  {
    if v == 0 {
      DivModUnique(a - 1, a, 0, a - 1);
    } else if v <= a {
      DivModUnique(v + a - 1, a, 1, v - 1);
      if v < a { DivModUnique(v, a, 0, v); } else { DivModUnique(v, a, 1, 0); }
    } else {
      AlignUpIsRounding(v - a, a);
      OneMore(v - 1, a);
      OneMore(v - a, a);
    }
  }

  lemma OneMore(x: nat, a: nat)
    requires a > 0
    ensures (x + a) / a * a == x / a * a + a && (x + a) % a == x % a
  {
    var q, r := x / a, x % a;
    assert x == q * a + r && (q + 1) * a == q * a + a;
    DivModUnique(x + a, a, q + 1, r);
  }

  lemma {:induction false} AlignUpStays(v: nat, a: nat)
    requires a > 0
    ensures AlignUp(AlignUp(v, a), a) == AlignUp(v, a)
  {
    if v > a { AlignUpStays(v - a, a); }
  }

  lemma {:induction false} AlignUpMonotone(v: nat, w: nat, a: nat)
    requires a > 0 && v <= w
    ensures AlignUp(v, a) <= AlignUp(w, a)
  {
    if v > a { AlignUpMonotone(v - a, w - a, a); }
  }

  /** Aligning from an aligned base is aligning the rest. */
  lemma {:induction false} AlignUpFrom(base: nat, v: nat, a: nat)
    requires a > 0 && AlignUp(base, a) == base
    ensures AlignUp(base + v, a) == base + AlignUp(v, a)
  {
    if base > 0 { AlignUpFrom(base - a, v, a); }
  }

  lemma MulAtLeast(d: nat, n: nat)
    requires d >= 1
    ensures d * n >= n
  {
    assert d * n == (d - 1) * n + n;
    assert (d - 1) * n >= 0;
  }

  /** Quotient and remainder are determined by their defining equation. */
  lemma DivModUnique(x: nat, n: nat, q: nat, r: nat)
    requires n > 0 && r < n && x == q * n + r
    ensures x / n == q && x % n == r
  {
    var q', r' := x / n, x % n;
    assert x == q' * n + r';
    if q > q' {
      assert (q - q') * n == q * n - q' * n;
      MulAtLeast(q - q', n);
    } else if q < q' {
      assert (q' - q) * n == q' * n - q * n;
      MulAtLeast(q' - q, n);
    }
  }

  /** x mod n, counted down for the same reason. */
  function Residue(x: nat, n: nat): (r: nat)
    requires n > 0
    ensures r < n && r <= x
  {
    if x < n then x else Residue(x - n, n)
  }

  lemma {:induction false} ResidueIsRemainder(x: nat, n: nat)
    requires n > 0
    ensures Residue(x, n) == x % n
  {
    if x < n {
      DivModUnique(x, n, 0, x);
    } else {
      ResidueIsRemainder(x - n, n);
      OneMore(x - n, n);
    }
  }

  /** Indices fewer than n apart fall into different residues, n apart into the same. */
  lemma {:induction false} ResidueStep(x: nat, d: nat, n: nat)
    requires n > 0 && d <= n
    ensures Residue(x + d, n) == Residue(x, n) <==> d == 0 || d == n
  {
    if x >= n { ResidueStep(x - n, d, n); }
  }

  lemma {:induction false} ResidueFrom(base: nat, r: nat, n: nat)
    requires n > 0 && Residue(base, n) == 0 && r < n
    ensures Residue(base + r, n) == r
  {
    if base >= n { ResidueFrom(base - n, r, n); }
  }
}
