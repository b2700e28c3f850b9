/**
 * The float64 arithmetic behind a rotation deadline. Durations are whole
 * nanoseconds. A float64 has a 53 bit significand, so above 2^53 only every
 * second, fourth, ... integer can be held, and every conversion and every
 * subtraction rounds to the nearest one, ties to even (section 4.3.1 of
 * IEEE 754-2008).
 */
module FloatDuration {

  const EXACT_LIMIT: nat := 0x20_0000_0000_0000      // 2^53
  const DURATION_LIMIT: nat := 0x4000_0000_0000_0000 // 2^62

  /** The distance between neighbouring float64 values around n. */
  function Spacing(n: nat): (u: nat)
    ensures 1 <= u
  {
    if n < EXACT_LIMIT then 1 else 2 * Spacing(n / 2)
  }

  function RoundToNearest(n: nat): int {
    var u := Spacing(n);
    var above := n % u;
    if 2 * above < u || (2 * above == u && (n / u) % 2 == 0) then n - above else n - above + u
  }

  /** float64(n) for an integer n, read back as an integer. */
  function Float64(n: int): int {
    if n >= 0 then RoundToNearest(n) else -RoundToNearest(-n)
  }

  /** time.Duration(float64(total) - float64(overlap)) */
  function Subtract(total: int, overlap: int): int {
    Float64(Float64(total) - Float64(overlap))
  }

  function Abs(n: int): nat {
    if n < 0 then -n else n
  }

  /** Integers below 2^62 that every float64 of their size can hold. */
  predicate Representable(n: int) {
    Abs(n) < EXACT_LIMIT || (Abs(n) < DURATION_LIMIT && n % 512 == 0)
  }

  predicate SmallPower(u: nat) {
    u in {1, 2, 4, 8, 16, 32, 64, 128, 256, 512}
  }

  lemma {:induction false} SpacingBelow(n: nat, u: nat)
    requires SmallPower(u) && n < EXACT_LIMIT * u
    ensures SmallPower(Spacing(n)) && Spacing(n) <= u
  {
    if EXACT_LIMIT <= n {
      SpacingBelow(n / 2, u / 2);
      SmallPowerDoubles(Spacing(n / 2), u / 2);
    }
  }

  lemma SmallPowerDoubles(v: nat, u: nat)
    requires SmallPower(v) && v <= u <= 256
    ensures SmallPower(2 * v)
  {
  }

  /** Below 2^62 the spacing is one of the ten powers of two up to 512. */
  lemma SpacingIsSmall(n: nat)
    requires n < DURATION_LIMIT
    ensures SmallPower(Spacing(n))
    ensures EXACT_LIMIT <= n <==> Spacing(n) != 1
  {
    SpacingBelow(n, 512);
  }

  /** A multiple of 512 is one of every smaller power. */
  lemma MultipleOf512(n: nat, u: nat)
    requires SmallPower(u) && n % 512 == 0
    ensures n % u == 0
  {
    var q := n / 512;
    assert Cofactor(u) * u == 512;
    assert n == 512 * q;
    assert u * (Cofactor(u) * q) == Cofactor(u) * u * q;
    DivisionIsUnique(n, u, Cofactor(u) * q, 0);
  }

  lemma QuotientAndRemainder(n: nat, u: nat)
    requires 1 <= u
    ensures n == n / u * u + n % u && 0 <= n % u < u
  {
  }

  lemma Monotone(a: int, b: int, u: nat)
    requires a <= b
    ensures a * u <= b * u
  {
  }

  /** No multiple of u lies strictly between n - n % u and the next one. */
  lemma NeighbourOf(n: nat, bound: nat, u: nat)
    requires 1 <= u && bound % u == 0
    ensures n % u < u
    ensures n <= bound && n % u != 0 ==> n - n % u + u <= bound
    ensures bound <= n ==> bound <= n - n % u
  {
    QuotientAndRemainder(n, u);
    QuotientAndRemainder(bound, u);
    var q, b := n / u, bound / u;
    if q < b {
      Monotone(q + 1, b, u);
    } else {
      Monotone(b, q, u);
    }
  }

  lemma Nearest(n: nat, u: nat, r: int)
    requires 1 <= u
    requires r == if 2 * (n % u) < u || (2 * (n % u) == u && n / u % 2 == 0) then n - n % u else n - n % u + u
    ensures exists q: int :: r == u * q && 2 * Abs(r - n) <= u && (2 * Abs(r - n) == u ==> q % 2 == 0)
  {
    var q, above := n / u, n % u;
    QuotientAndRemainder(n, u);
    if 2 * above < u || (2 * above == u && q % 2 == 0) {
      assert r == u * q;
    } else {
      assert u * (q + 1) == u * q + u;
      assert r == u * (q + 1);
    }
  }

  lemma RoundedIs(n: nat)
    ensures var u := Spacing(n);
            RoundToNearest(n) == if 2 * (n % u) < u || (2 * (n % u) == u && n / u % 2 == 0) then n - n % u else n - n % u + u
  {
  }

  /** Rounding gives a nearest multiple of the spacing, and an even one where two are equally near. */
  lemma Float64IsNearest(n: int)
    ensures var u := Spacing(Abs(n));
            exists q: int :: Float64(n) == u * q && 2 * Abs(Float64(n) - n) <= u && (2 * Abs(Float64(n) - n) == u ==> q % 2 == 0)
  {
    hide Spacing, RoundToNearest;
    var u := Spacing(Abs(n));
    RoundedIs(Abs(n));
    Nearest(Abs(n), u, RoundToNearest(Abs(n)));
    var q: int :| RoundToNearest(Abs(n)) == u * q && 2 * Abs(RoundToNearest(Abs(n)) - Abs(n)) <= u
             && (2 * Abs(RoundToNearest(Abs(n)) - Abs(n)) == u ==> q % 2 == 0);
    if n < 0 {
      assert u * -q == -(u * q);
      assert Float64(n) == u * -q;
    }
  }

  /** A representable integer survives the conversion. */
  lemma Float64Exact(n: int)
    requires Representable(n)
    ensures Float64(n) == n
  {
    SpacingIsSmall(Abs(n));
    if EXACT_LIMIT <= Abs(n) {
      MultipleOf512(Abs(n), Spacing(Abs(n)));
    }
  }

  /**
   * Rounding moves a value below 2^62 by at most 256, and never across a
   * representable bound.
   */
  lemma Float64Near(n: int, bound: int)
    requires Abs(n) < DURATION_LIMIT && Representable(bound)
    ensures Abs(Float64(n) - n) <= 256
    ensures n <= bound ==> Float64(n) <= bound
    ensures n >= bound ==> Float64(n) >= bound
  {
    var m, u := Abs(n), Spacing(Abs(n));
    SpacingIsSmall(m);
    if EXACT_LIMIT <= m {
      assert EXACT_LIMIT % 512 == 0;
      MultipleOf512(EXACT_LIMIT, u);
      NeighbourOf(m, EXACT_LIMIT, u);
      if EXACT_LIMIT <= Abs(bound) {
        MultipleOf512(Abs(bound), u);
        NeighbourOf(m, Abs(bound), u);
      }
    }
  }

  /**
   * The float64 subtraction is exact whenever its operands and its result
   * are representable.
   */
  lemma SubtractExact(total: int, overlap: int)
    requires Representable(total) && Representable(overlap) && Representable(total - overlap)
    ensures Subtract(total, overlap) == total - overlap
  {
    Float64Exact(total);
    Float64Exact(overlap);
    Float64Exact(total - overlap);
  }

  /** A whole number of seconds is a multiple of 512 ns, */
  lemma SecondsAreMultiples(seconds: int)
    ensures seconds * 1_000_000_000 % 512 == 0
  {
    assert seconds * 1_000_000_000 == 512 * (1953125 * seconds);
  }

  /** from which rounding takes at most 512 ns, */
  lemma SubtractWithin(total: int, overlap: int)
    requires total % 512 == 0 && Abs(total) < DURATION_LIMIT
    requires 0 <= overlap < DURATION_LIMIT && overlap - total + 512 < DURATION_LIMIT
    ensures Subtract(total, overlap) <= total
    ensures Abs(Subtract(total, overlap) - (total - overlap)) <= 512
  {
    hide Float64;
    Float64Exact(total);
    Float64Near(overlap, 0);
    Float64Near(overlap, total);
    Float64Near(total - Float64(overlap), total);
  }

  /** and nothing for an overlap that is one too, or when both are below 2^52. */
  lemma SubtractOnGrid(total: int, overlap: int)
    requires total % 512 == 0 && Abs(total) < DURATION_LIMIT
    requires 0 <= overlap < DURATION_LIMIT && overlap - total + 512 < DURATION_LIMIT
    requires overlap % 512 == 0 || Abs(total) + overlap < EXACT_LIMIT
    ensures Subtract(total, overlap) == total - overlap
  {
    hide Subtract;
    SubtractExact(total, overlap);
  }

  /**
   * For a whole number of seconds below 2^62 ns and any overlap it is off by
   * at most 512 ns and never more than the validity itself. It is exact for an
   * overlap that is a multiple of 512 ns, or when both are below 2^52.
   */
  lemma SubtractNear(seconds: int, overlap: int)
    requires Abs(seconds * 1_000_000_000) < DURATION_LIMIT
    requires 0 <= overlap < DURATION_LIMIT && overlap - seconds * 1_000_000_000 + 512 < DURATION_LIMIT
    ensures Subtract(seconds * 1_000_000_000, overlap) <= seconds * 1_000_000_000
    ensures Abs(Subtract(seconds * 1_000_000_000, overlap) - (seconds * 1_000_000_000 - overlap)) <= 512
    ensures overlap % 512 == 0 || Abs(seconds * 1_000_000_000) + overlap < EXACT_LIMIT ==>
              Subtract(seconds * 1_000_000_000, overlap) == seconds * 1_000_000_000 - overlap
  {
    hide Subtract;
    SecondsAreMultiples(seconds);
    SubtractWithin(seconds * 1_000_000_000, overlap);
    if overlap % 512 == 0 || Abs(seconds * 1_000_000_000) + overlap < EXACT_LIMIT {
      SubtractOnGrid(seconds * 1_000_000_000, overlap);
    }
  }

  // ---- How much rounding takes off ----

  predicate WideSpacing(u: nat) {
    u in {2, 4, 8, 16, 32, 64, 128, 256, 512}
  }

  /**
   * The most that rounding to multiples of u takes off a multiple of 512 less f.
   * Ties go to even, which for u below 512 is a matter of f alone.
   */
  function LossAt(u: nat, f: int): nat
    requires 1 <= u
  {
    var over := -f % u;
    if 2 * over < u || (2 * over == u && (u == 512 || -f % (2 * u) == over)) then over else 0
  }

  lemma WideSpacingOf(n: nat)
    requires EXACT_LIMIT <= n < DURATION_LIMIT
    ensures WideSpacing(Spacing(n))
  {
    SpacingIsSmall(n);
  }

  lemma Less(a: int, b: int, w: nat)
    requires 1 <= w && w * a < w * b + w && w * b < w * a + w
    ensures a == b
  {
    if a < b {
      Monotone(a + 1, b, w);
    } else if b < a {
      Monotone(b + 1, a, w);
    }
  }

  lemma DivisionIsUnique(n: int, w: nat, q: int, r: int)
    requires 1 <= w && n == w * q + r && 0 <= r < w
    ensures n / w == q && n % w == r
  {
    assert n == w * (n / w) + n % w;
    Less(n / w, q, w);
  }

  /** Adding a multiple of w does not change the remainder by w, */
  lemma RemainderShifts(n: int, w: nat, k: int)
    requires 1 <= w
    ensures (n + w * k) % w == n % w
  {
    assert n == w * (n / w) + n % w;
    assert w * (n / w + k) == w * (n / w) + w * k;
    DivisionIsUnique(n + w * k, w, n / w + k, n % w);
  }

  /** and the remainder by 2 * w tells the parity of the quotient. */
  lemma RemainderByDouble(n: int, w: nat)
    requires 1 <= w
    ensures n / w % 2 == 0 <==> n % (2 * w) == n % w
  {
    var q, r := n / w, n % w;
    var h, b := q / 2, q % 2;
    assert n == w * q + r && q == 2 * h + b;
    assert w * q == w * (2 * h) + w * b;
    assert w * (2 * h) == 2 * w * h;
    assert b == 0 || b == 1;
    assert b == 1 ==> w * b == w;
    assert b == 0 ==> w * b == 0;
    DivisionIsUnique(n, 2 * w, h, w * b + r);
  }

  function Cofactor(w: nat): nat {
    if w == 1 then 512 else if w == 2 then 256 else if w == 4 then 128 else if w == 8 then 64 else if w == 16 then 32 else if w == 32 then 16
    else if w == 64 then 8 else if w == 128 then 4 else if w == 256 then 2 else 1
  }

  /** The remainders of a multiple of 512 less f are those of -f. */
  lemma RemainderOf(k: int, f: int, w: nat)
    requires WideSpacing(w)
    ensures (512 * k - f) % w == -f % w
  {
    assert w * Cofactor(w) == 512;
    assert w * Cofactor(w) * k == w * (Cofactor(w) * k);
    RemainderShifts(-f, w, Cofactor(w) * k);
  }

  lemma RoundedDown(n: nat, u: nat)
    requires 1 <= u
    ensures Spacing(n) == u ==>
              n - RoundToNearest(n) == if 2 * (n % u) < u || (2 * (n % u) == u && n / u % 2 == 0) then n % u else n % u - u
  {
  }

  /**
   * Rounding a positive multiple of 512 less f takes off at most LossAt its
   * spacing, and exactly that much unless a tie at 512 goes up.
   */
  lemma RoundingLoss(k: int, f: int)
    requires EXACT_LIMIT <= 512 * k - f < DURATION_LIMIT
    ensures var x := 512 * k - f;
            var u := Spacing(x);
            && WideSpacing(u) && x - Float64(x) <= LossAt(u, f)
            && (LossAt(u, f) > 0 && (u < 512 || x / u % 2 == 0) ==> x - Float64(x) == LossAt(u, f))
  {
    hide Spacing, RoundToNearest;
    var x := 512 * k - f;
    var u := Spacing(x);
    WideSpacingOf(x);
    RoundedDown(x, u);
    RemainderOf(k, f, u);
    if u < 512 {
      assert WideSpacing(2 * u);
      RemainderOf(k, f, 2 * u);
      RemainderByDouble(x, u);
    }
  }

  /** The spacing is u from 2^52 * u on. */
  lemma {:induction false} SpacingIs(n: nat, u: nat)
    requires WideSpacing(u) && EXACT_LIMIT / 2 * u <= n < EXACT_LIMIT * u
    ensures Spacing(n) == u
  {
    if u > 2 {
      SpacingIs(n / 2, u / 2);
    }
  }
}
