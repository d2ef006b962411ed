/** The bounded sampler: `get_seeded_random_int` and `get_seeded_choice`.

    Both first re-derive the seed with `int((float(seed) * 9301 + 49297) % 233280)`
    in double precision, as the JavaScript front end does, then draw from the
    generator and scale the draw to the requested size with `math.floor`. */
module Sampler {
  import opened Int32
  import opened Binary64
  import Prng

  datatype Option<T> = None | Some(value: T)

  const Multiplier: int := 9301
  const Increment: int := 49297
  const Modulus: int := 233280

  /** The float seed transform.  `float(seed)`, the product and the sum are
      integer-valued doubles, each the exact result rounded to the nearest
      double; `%` by a positive integer is exact on integer-valued doubles and
      takes the sign of the divisor, so it is the floored remainder, and
      `int(...)` then changes nothing. */
  function SeedTransform(seed: int): (r: int)
    ensures 0 <= r < Modulus
  {
    RoundToDouble(RoundToDouble(RoundToDouble(seed) * Multiplier) + Increment) % Modulus
  }

  /** `math.floor(rnd * n)` where `rnd = bits / 2^32`: the quotient is exact,
      `n` is converted to a double, and the product is rounded once; scaling
      by 2^-32 commutes with that rounding, and the floor of x / 2^32 is the
      floored quotient. */
  function ScaleToRange(bits: int, n: int): (idx: int)
    ensures 0 <= bits && 0 <= n ==> 0 <= idx
    ensures bits == 0 || n == 0 ==> idx == 0
  {
    var big := RoundToDouble(n);
    ProductSign(bits, big);
    RoundToDouble(bits * big) / TwoTo32
  }

  lemma ProductSign(a: int, b: int)
    ensures 0 <= a && 0 <= b ==> 0 <= a * b
    ensures a == 0 || b == 0 ==> a * b == 0
  {
    if 0 <= a && 0 <= b {
      MulLeq(0, a, b);
    }
  }

  /** For every draw and every positive size, the scaled draw is an index in
      [0, n).  Rounding can push the product up, but by less than 2^-52 of it,
      which never reaches the next multiple of 2^32. */
  lemma ScaleBounds(bits: int, n: int)
    requires 0 <= bits < TwoTo32
    ensures 1 <= n ==> 0 <= ScaleToRange(bits, n) < n
  {
    if 1 <= n {
      var big := RoundToDouble(n);
      RelativeError(n);
      assert big >= 0 && (big - n) * TwoTo53 <= n;
      var p := bits * big;
      assert p >= 0 by { MulLeq(0, bits, big); }
      var f := RoundToDouble(p);
      RelativeError(p);
      assert f >= 0 && (f - p) * TwoTo53 <= p;
      assert (TwoTo32 - 1) * (2 * TwoTo53 + 1) < TwoTo53 * TwoTo53;
      RoundingStaysBelow(TwoTo32, TwoTo53, bits, n, big, f);
      QuotientBelow(f, n);
    }
  }

  /** The arithmetic of ScaleBounds with the constants abstracted: if the
      size n and the product each grow by at most a factor (1 + 1/a) when
      rounded, and (k - 1)(2a + 1) < a^2, then f stays below k * n. */
  lemma RoundingStaysBelow(k: int, a: int, bits: int, n: int, big: int, f: int)
    requires 1 <= k && (k - 1) * (2 * a + 1) < a * a && a >= 1
    requires 0 <= bits <= k - 1 && 1 <= n
    requires big >= 0 && (big - n) * a <= n
    requires f >= 0 && (f - bits * big) * a <= bits * big
    ensures f < k * n
  {
    var c := (k - 1) * (a + 1);
    ProductGrowth(k, a, bits, big, f, c);
    GrowthTimesA(f * a, c, big, a);
    SizeGrowth(c, big, n, a);
    CoefficientBound(k, a, c);
    MulLess(c * (a + 1), k * (a * a), n);
    CancelSquare(f, k, n, a);
  }

  /** f * a <= (k - 1)(a + 1) * big: the rounded product against the size. */
  lemma ProductGrowth(k: int, a: int, bits: int, big: int, f: int, c: int)
    requires a >= 1 && 0 <= bits <= k - 1 && big >= 0 && c == (k - 1) * (a + 1)
    requires (f - bits * big) * a <= bits * big
    ensures f * a <= c * big
  {
    var p := bits * big;
    assert f * a <= p * (a + 1);
    MulLeq(bits, k - 1, big);
    MulLeq(p, (k - 1) * big, a + 1);
  }

  lemma GrowthTimesA(x: int, c: int, big: int, a: int)
    requires a >= 1 && x <= c * big
    ensures x * a <= c * (big * a)
  {
    MulLeq(x, c * big, a);
  }

  lemma SizeGrowth(c: int, big: int, n: int, a: int)
    requires c >= 0 && (big - n) * a <= n
    ensures c * (big * a) <= (c * (a + 1)) * n
  {
    assert big * a <= n * (a + 1);
    MulLeq(big * a, n * (a + 1), c);
  }

  lemma CoefficientBound(k: int, a: int, c: int)
    requires (k - 1) * (2 * a + 1) < a * a && c == (k - 1) * (a + 1)
    ensures c * (a + 1) < k * (a * a)
  {
    assert c * (a + 1) == (k - 1) * (2 * a + 1) + (k - 1) * (a * a);
  }

  /** Dividing both sides by a^2. */
  lemma CancelSquare(f: int, k: int, n: int, a: int)
    requires a >= 1
    requires (f * a) * a < (k * (a * a)) * n
    ensures f < k * n
  {
    var w := a * a;
    assert (f * a) * a == f * w;
    assert (k * w) * n == (k * n) * w;
    if f >= k * n {
      MulLeq(k * n, f, w);
    }
  }

  /** A value in [0, 2^32 * n) has a floored quotient by 2^32 in [0, n). */
  lemma QuotientBelow(f: int, n: int)
    requires 0 <= f < TwoTo32 * n
    ensures 0 <= f / TwoTo32 < n
  {
  }

  lemma MulLess(a: int, b: int, c: int)
    requires a < b && c >= 1
    ensures a * c < b * c
  {
  }

  /** While `bits * n` stays below 2^53, i.e. for every size up to 2^21, no
      rounding happens and the scaled draw is the integer quotient. */
  lemma ScaleExact(bits: int, n: int)
    requires 0 <= bits < TwoTo32 && 0 <= n <= 0x20_0000
    ensures ScaleToRange(bits, n) == bits * n / TwoTo32
  {
    assert RoundToDouble(n) == n;
    var p := bits * n;
    MulLeq(0, bits, n);
    MulLeq(bits, TwoTo32 - 1, n);
    assert 0 <= p <= (TwoTo32 - 1) * n;
    assert (TwoTo32 - 1) * n <= (TwoTo32 - 1) * 0x20_0000;
    assert RoundToDouble(p) == p;
  }

  /** `get_seeded_random_int(seed, min_val, max_val)`: an integer in
      [min_val, max_val] whenever the range is not empty.  The source does
      not check the range; an empty one gives an unconstrained integer. */
  function GetSeededRandomInt(seed: int, minVal: int, maxVal: int): (r: int)
    ensures minVal <= maxVal ==> minVal <= r <= maxVal
  {
    var bits := Prng.Mulberry32(SeedTransform(seed));
    ScaleBounds(bits, maxVal - minVal + 1);
    ScaleToRange(bits, maxVal - minVal + 1) + minVal
  }

  /** The sampler scales the generator's draw at the transformed seed. */
  lemma DrawIsScaled(seed: int, minVal: int, maxVal: int, bits: int)
    requires bits == Prng.Mulberry32(SeedTransform(seed))
    ensures GetSeededRandomInt(seed, minVal, maxVal) == ScaleToRange(bits, maxVal - minVal + 1) + minVal
  {
  }

  /** `idx = math.floor(rnd * len(options))` of `get_seeded_choice`. */
  function ChoiceIndex(seed: int, n: nat): (idx: int)
    ensures 1 <= n ==> 0 <= idx < n
  {
    var bits := Prng.Mulberry32(SeedTransform(seed));
    ScaleBounds(bits, n);
    ScaleToRange(bits, n)
  }

  /** The choice scales the generator's draw at the transformed seed. */
  lemma ChoiceIsScaled(seed: int, n: nat, bits: int)
    requires bits == Prng.Mulberry32(SeedTransform(seed))
    ensures ChoiceIndex(seed, n) == ScaleToRange(bits, n)
  {
  }

  /** `get_seeded_choice(seed, options)`: the option at the drawn index.  On an
      empty list the index is 0 and `options[0]` raises IndexError, modelled
      as None. */
  function GetSeededChoice<T>(seed: int, options: seq<T>): (r: Option<T>)
    ensures r.Some? <==> |options| > 0
    ensures r.Some? ==> 0 <= ChoiceIndex(seed, |options|) < |options|
                        && r.value == options[ChoiceIndex(seed, |options|)]
  {
    var idx := ChoiceIndex(seed, |options|);
    if 0 <= idx < |options| then Some(options[idx]) else None
  }

  /** Choosing among n options draws the same index as asking for an integer
      in [0, n - 1]. */
  lemma ChoiceIsBoundedInt(seed: int, n: nat)
    requires n >= 1
    ensures ChoiceIndex(seed, n) == GetSeededRandomInt(seed, 0, n - 1)
  {
  }

  /** Selection is by position: two lists of the same length yield the
      elements at the same index, so `[a, b]` and `[b, a]` yield different
      elements when a != b. */
  lemma ChoiceByPosition<T>(seed: int, xs: seq<T>, ys: seq<T>)
    requires |xs| == |ys| > 0
    ensures exists i :: 0 <= i < |xs| && GetSeededChoice(seed, xs) == Some(xs[i])
                                     && GetSeededChoice(seed, ys) == Some(ys[i])
  {
    var i := ChoiceIndex(seed, |xs|);
    assert GetSeededChoice(seed, xs) == Some(xs[i]);
  }

  /** Swapping a two-element list swaps the outcome. */
  lemma SwappedPairSwapsChoice<T>(seed: int, a: T, b: T)
    ensures GetSeededChoice(seed, [a, b]) == Some(a) <==> GetSeededChoice(seed, [b, a]) == Some(b)
    ensures a != b ==> GetSeededChoice(seed, [a, b]) != GetSeededChoice(seed, [b, a])
  {
    ChoiceOfPair(seed, a, b);
    ChoiceOfPair(seed, b, a);
  }

  /** A two-element list yields its first element exactly when the drawn
      index is 0. */
  lemma ChoiceOfPair<T>(seed: int, a: T, b: T)
    ensures GetSeededChoice(seed, [a, b]) == Some(if ChoiceIndex(seed, 2) == 0 then a else b)
  {
  }
}
