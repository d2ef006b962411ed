/** Integer-valued IEEE 754 binary64 arithmetic.

    The sampler's seed transform runs in double precision on values that are
    always integers, so each floating-point operation is exact integer
    arithmetic followed by rounding to the nearest double, ties to even
    (roundTiesToEven, section 4.3.1 of IEEE 754-2008).  Doubles have a 53-bit
    significand: below 2^53 every integer is a double; from 2^53 on the
    doubles of one binade [2^k, 2^(k+1)) are spaced 2^(k-52) apart. */
module Binary64 {
  import opened Int32

  const TwoTo52: int := 0x10_0000_0000_0000
  const TwoTo53: int := 0x20_0000_0000_0000

  /** 1, 2, 4, 8, ... */
  predicate IsPowerOfTwo(u: nat)
  {
    u == 1 || (u >= 2 && u % 2 == 0 && IsPowerOfTwo(u / 2))
  }

  /** The distance between consecutive doubles around the magnitude x. */
  function Spacing(x: nat): (u: nat)
    ensures u >= 1
    ensures x < TwoTo53 ==> u == 1
    ensures x >= TwoTo53 ==> u * TwoTo52 <= x < u * TwoTo53
    decreases x
  {
    if x < TwoTo53 then 1 else 2 * Spacing(x / 2)
  }

  /** Round a magnitude to the nearest multiple of its spacing, ties to the
      even multiple (the one whose significand ends in a 0 bit). */
  function RoundMagnitude(x: nat): (r: nat)
    ensures r % Spacing(x) == 0
    ensures 2 * (r - x) <= Spacing(x) && 2 * (x - r) <= Spacing(x)
    ensures 2 * (x % Spacing(x)) == Spacing(x) ==> (r / Spacing(x)) % 2 == 0
  {
    var u := Spacing(x);
    var q, rem := x / u, x % u;
    var down := 2 * rem < u || (2 * rem == u && q % 2 == 0);
    var k := if down then q else q + 1;
    NearestMultiple(x, u, k);
    k * u
  }

  /** Either neighbouring multiple of u is within u / 2 of x when the
      remainder decides between them. */
  lemma NearestMultiple(x: nat, u: nat, k: nat)
    requires u >= 1
    requires k == x / u || k == x / u + 1
    requires k == x / u ==> 2 * (x % u) <= u
    requires k == x / u + 1 ==> 2 * (x % u) >= u
    ensures (k * u) % u == 0 && (k * u) / u == k
    ensures 2 * (k * u - x) <= u && 2 * (x - k * u) <= u
  {
    var q, rem := x / u, x % u;
    assert x == q * u + rem;
    assert k * u - x == if k == q then -rem else u - rem;
    MultipleMod(k, u);
  }

  /** A multiple of u leaves no remainder. */
  lemma MultipleMod(k: nat, u: nat)
    requires u >= 1
    ensures (k * u) % u == 0 && (k * u) / u == k
  {
    var p := k * u;
    assert p == (p / u) * u + p % u;
    assert (k - p / u) * u == p % u;
    if k > p / u {
      MulLeq(1, k - p / u, u);
    } else if k < p / u {
      MulLeq(1, p / u - k, u);
    }
  }

  /** `float(x)` for an integer x, and the result of any floating-point
      operation whose exact result is the integer x: the double nearest to x,
      ties to even.  The sign is handled separately, as IEEE 754 does. */
  function RoundToDouble(x: int): (r: int)
    ensures Abs(x) < TwoTo53 ==> r == x
    ensures x >= 0 ==> r >= 0
    ensures x <= 0 ==> r <= 0
    ensures 2 * (r - x) <= Spacing(Abs(x)) && 2 * (x - r) <= Spacing(Abs(x))
    ensures 2 * (Abs(x) % Spacing(Abs(x))) == Spacing(Abs(x)) ==> (Abs(r) / Spacing(Abs(x))) % 2 == 0
  {
    if x < 0 then 0 - RoundMagnitude(-x) else RoundMagnitude(x)
  }

  /** The spacing is a power of two; with the binade bound of Spacing this
      fixes it. */
  lemma {:induction false} SpacingIsPowerOfTwo(x: nat)
    ensures IsPowerOfTwo(Spacing(x))
    decreases x
  {
    if x >= TwoTo53 {
      var half := Spacing(x / 2);
      SpacingIsPowerOfTwo(x / 2);
      assert Spacing(x) == 2 * half;
      DoubleIsPowerOfTwo(half);
    }
  }

  lemma DoubleIsPowerOfTwo(k: nat)
    requires IsPowerOfTwo(k)
    ensures IsPowerOfTwo(2 * k)
  {
    assert k >= 1;
    assert (2 * k) % 2 == 0 && (2 * k) / 2 == k;
  }

  /** The rounded value is a double: its magnitude is a multiple of the
      spacing at x. */
  lemma RoundIsDouble(x: int)
    ensures Abs(RoundToDouble(x)) % Spacing(Abs(x)) == 0
  {
    assert Abs(RoundToDouble(x)) == RoundMagnitude(Abs(x));
  }

  /** An integer that already lies on the grid of doubles is not changed. */
  lemma RoundOnGrid(x: int)
    requires Abs(x) % Spacing(Abs(x)) == 0
    ensures RoundToDouble(x) == x
  {
    MagnitudeOnGrid(Abs(x));
  }

  lemma MagnitudeOnGrid(m: nat)
    requires m % Spacing(m) == 0
    ensures RoundMagnitude(m) == m
  {
    var u := Spacing(m);
    assert m == (m / u) * u;
  }

  /** Every integer of magnitude at most 2^53 is a double. */
  lemma ExactUpTo2To53(x: int)
    requires Abs(x) <= TwoTo53
    ensures RoundToDouble(x) == x
  {
    if Abs(x) == TwoTo53 {
      assert Spacing(TwoTo53) == 2 * Spacing(TwoTo52);
      RoundOnGrid(x);
    }
  }

  /** Rounding changes a value by at most 2^-53 of its magnitude. */
  lemma RelativeError(x: int)
    ensures (RoundToDouble(x) - x) * TwoTo53 <= Abs(x)
    ensures (x - RoundToDouble(x)) * TwoTo53 <= Abs(x)
  {
    var m := Abs(x);
    var u := Spacing(m);
    var r := RoundToDouble(x);
    if m >= TwoTo53 {
      assert 2 * (r - x) <= u && 2 * (x - r) <= u;
      assert (r - x) * TwoTo53 == 2 * (r - x) * TwoTo52;
      assert (x - r) * TwoTo53 == 2 * (x - r) * TwoTo52;
      MulLeq(2 * (r - x), u, TwoTo52);
      MulLeq(2 * (x - r), u, TwoTo52);
    }
  }

  /** Multiplying both sides of an inequality by a non-negative factor. */
  lemma MulLeq(a: int, b: int, c: nat)
    requires a <= b
    ensures a * c <= b * c
  {
  }
}
