/** Alignment arithmetic, and the few generic definitions every other module uses. */
module Alignment {

  datatype Option<+T> = None | Some(value: T)

  function Min(a: nat, b: nat): nat { if a <= b then a else b }

  function Max(a: nat, b: nat): nat { if a >= b then a else b }

  lemma Assoc<T>(a: seq<T>, b: seq<T>, c: seq<T>)
    ensures a + b + c == a + (b + c)
  {
  }

  /** What holds at 0 and passes from each number below `n` to the next holds at `n`. */
  lemma {:induction false} Climb(holds: nat -> bool, n: nat)
    requires holds(0) && forall i: nat :: i < n && holds(i) ==> holds(i + 1)
    ensures holds(n)
  {
    if n > 0 { Climb(holds, n - 1); }
  }

  /** Ceiling of `a / b`. */
  function CeilDiv(a: nat, b: nat): nat
    requires b > 0
  {
    (a + b - 1) / b
  }

  /** `Math.ceil(offset / align) * align`, with alignments 0 and 1 leaving the offset alone. */
  function AlignUp(offset: nat, align: nat): (r: nat)
    ensures offset <= r
    ensures align <= 1 ==> r == offset
    ensures align > 1 ==> r < offset + align
  {
    if align <= 1 then offset
    else
      CeilBounds(offset, align);
      CeilDiv(offset, align) * align
  }

  lemma AlignUpMultiple(offset: nat, align: nat)
    requires align > 0
    ensures AlignUp(offset, align) % align == 0
  {
    if align > 1 { MultipleMod(CeilDiv(offset, align), align); }
  }

  /** A nonzero multiple of `a` is at least one step away from zero. */
  lemma SmallProduct(d: int, a: nat)
    ensures d == 0 || d * a >= a || d * a <= -(a as int)
  {
    if d >= 1 {
      assert (d - 1) * a >= 0;
    } else if d <= -1 {
      assert (-d - 1) * a >= 0;
    }
  }

  lemma MultipleMod(k: nat, a: nat)
    requires a > 0
    ensures (k * a) % a == 0
  {
    var x := k * a;
    var q, r := x / a, x % a;
    assert x == q * a + r;
    assert (k - q) * a == r;
    SmallProduct(k - q, a);
  }

  lemma CeilBounds(x: nat, a: nat)
    requires a > 0
    ensures x <= CeilDiv(x, a) * a < x + a
  {
    var y := x + a - 1;
    assert y == (y / a) * a + y % a;
  }

  /** The aligned offset is the least multiple of `align` at or above `offset`. */
  lemma AlignUpLeast(offset: nat, align: nat, m: nat)
    requires offset <= m
    requires align > 1 ==> m % align == 0
    ensures AlignUp(offset, align) <= m
  {
    if align > 1 {
      var r := AlignUp(offset, align);
      AlignUpMultiple(offset, align);
      var i, j := m / align, r / align;
      assert m == i * align && r == j * align;
      assert (j - i) * align == r - m;
      SmallProduct(j - i, align);
    }
  }

  predicate Pow2(n: nat) {
    n == 1 || (n > 0 && n % 2 == 0 && Pow2(n / 2))
  }

  lemma {:induction false} Pow2Divides(p: nat, q: nat)
    requires Pow2(p) && Pow2(q) && p <= q
    ensures q % p == 0
  {
    if p > 1 {
      Pow2Divides(p / 2, q / 2);
      var k := (q / 2) / (p / 2);
      assert q / 2 == k * (p / 2);
      assert q == k * p;
      MultipleMod(k, p);
    }
  }

  /** A multiple of a larger power of two is a multiple of every smaller one. */
  lemma {:induction false} Pow2Multiple(p: nat, q: nat, m: nat)
    requires Pow2(p) && Pow2(q) && p <= q && m % q == 0
    ensures m % p == 0
  {
    Pow2Divides(p, q);
    MultipleTransitive(p, q, m);
  }

  lemma Quotient(m: nat, q: nat)
    requires q > 0 && m % q == 0
    ensures m == (m / q) * q
  {
  }

  lemma MultipleTransitive(p: nat, q: nat, m: nat)
    requires p > 0 && q > 0 && q % p == 0 && m % q == 0
    ensures m % p == 0
  {
    var k, j := q / p, m / q;
    Quotient(q, p);
    Quotient(m, q);
    MultipleMod(j * k, p);
    calc { m; j * q; j * (k * p); (j * k) * p; }
  }

  /** Rounding up is monotone in the offset and, for powers of two, in the alignment. */
  lemma {:induction false} AlignUpMonotone(x: nat, y: nat, p: nat, q: nat)
    requires x <= y && Pow2(p) && Pow2(q) && p <= q
    ensures AlignUp(x, p) <= AlignUp(y, q)
  {
    if q > 1 {
      AlignUpMultiple(y, q);
      Pow2Multiple(p, q, AlignUp(y, q));
      AlignUpLeast(x, p, AlignUp(y, q));
    }
  }
}
