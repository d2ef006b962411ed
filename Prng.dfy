/** The bit-mixing generator `seeded_random`, a Mulberry32-style mix.

    The Python function returns `result / 4294967296`, a double in [0, 1).
    The model returns the integer numerator `result` in [0, 2^32) instead: the
    division by a power of two is exact, so the numerator carries all of the
    value. */
module Prng {
  import opened Int32

  /** Mulberry32's additive constant, added to the seed before mixing. */
  const Increment: int := 0x6D2B79F5

  /** `seed = abs(to_int32(seed))`, then `t = to_uint32(seed + 0x6D2B79F5)`. */
  function Start(seed: int): (t: int)
    ensures 0 <= t < TwoTo32
  {
    ToUint32(Abs(ToInt32(seed)) + Increment)
  }

  /** `t = to_uint32(js_imul(t ^ (t >> 15), t | 1))`. */
  function MixMultiply(t: int): (t': int)
    requires 0 <= t < TwoTo32
    ensures 0 <= t' < TwoTo32
  {
    ToUint32(JsImul(Xor(t, t / 0x8000), Or(t, 1)))
  }

  /** `js_imul(t ^ (t >> 7), t | 61)`, the `imul_result` of the second step. */
  function AddImul(t: int): (r: int)
    requires 0 <= t < TwoTo32
    ensures -TwoTo31 <= r < TwoTo31
  {
    JsImul(Xor(t, t / 0x80), Or(t, 61))
  }

  /** `t = to_uint32(t ^ to_uint32(t + imul_result))`. */
  function MixAdd(t: int): (t': int)
    requires 0 <= t < TwoTo32
    ensures 0 <= t' < TwoTo32
  {
    ToUint32(Xor(t, ToUint32(t + AddImul(t))))
  }

  /** `to_uint32(t ^ (t >> 14))`. */
  function Finish(t: int): (r: int)
    requires 0 <= t < TwoTo32
    ensures 0 <= r < TwoTo32
  {
    ToUint32(Xor(t, t / 0x4000))
  }

  /** The numerator of `seeded_random(seed)`: the returned double is
      `Mulberry32(seed) / 2^32`, which lies in [0, 1). */
  function Mulberry32(seed: int): (r: int)
    ensures 0 <= r < TwoTo32
  {
    Finish(MixAdd(MixMultiply(Start(seed))))
  }

  /** `seeded_random` as kiki2test.py writes it: straight-line reassignment
      of `t`, with the shifted values and the `js_imul` result in temporaries. */
  method SeededRandom(seed: int) returns (numerator: int)
    ensures numerator == Mulberry32(seed)
    ensures 0 <= numerator < TwoTo32
  {
    var s := Abs(ToInt32(seed));
    var t := ToUint32(s + Increment);
    ghost var t0 := t;
    assert t0 == Start(seed);
    var tShifted := t / 0x8000;
    t := ToUint32(JsImul(Xor(t, tShifted), Or(t, 1)));
    MultiplyStep(t0, tShifted, t);
    ghost var t1 := t;
    var tShifted2 := t / 0x80;
    var imulResult := JsImul(Xor(t, tShifted2), Or(t, 61));
    ImulStep(t1, tShifted2, imulResult);
    t := ToUint32(Xor(t, ToUint32(t + imulResult)));
    AddStep(t1, imulResult, t);
    ghost var t2 := t;
    numerator := ToUint32(Xor(t, t / 0x4000));
    FinishStep(t2, numerator);
    Stages(seed, t0, t1, t2, numerator);
  }

  /** The first mixing statement with its shifted value in a temporary. */
  lemma MultiplyStep(t: int, tShifted: int, t': int)
    requires 0 <= t < TwoTo32 && tShifted == t / 0x8000
    requires t' == ToUint32(JsImul(Xor(t, tShifted), Or(t, 1)))
    ensures t' == MixMultiply(t)
  {
  }

  /** The `js_imul` of the second step with its shifted value in a temporary. */
  lemma ImulStep(t: int, tShifted2: int, imulResult: int)
    requires 0 <= t < TwoTo32 && tShifted2 == t / 0x80
    requires imulResult == JsImul(Xor(t, tShifted2), Or(t, 61))
    ensures imulResult == AddImul(t)
  {
  }

  /** The second mixing statement with the `js_imul` result in a temporary. */
  lemma AddStep(t: int, imulResult: int, t': int)
    requires 0 <= t < TwoTo32 && imulResult == AddImul(t)
    requires t' == ToUint32(Xor(t, ToUint32(t + imulResult)))
    ensures t' == MixAdd(t)
  {
  }

  /** The last statement. */
  lemma FinishStep(t: int, r: int)
    requires 0 <= t < TwoTo32 && r == ToUint32(Xor(t, t / 0x4000))
    ensures r == Finish(t)
  {
  }

  /** The four stages chain into the generator. */
  lemma Stages(seed: int, t0: int, t1: int, t2: int, r: int)
    requires t0 == Start(seed) && t1 == MixMultiply(t0) && t2 == MixAdd(t1) && r == Finish(t2)
    ensures r == Mulberry32(seed)
  {
  }

  /** The generator only sees the seed as a 32-bit word. */
  lemma Mulberry32Periodic(seed: int, k: int)
    ensures Mulberry32(seed + k * TwoTo32) == Mulberry32(seed)
  {
    ConversionsPeriodic(seed, k);
  }

  /** Because of the `abs`, a seed and its negation give the same value. */
  lemma Mulberry32Symmetric(seed: int)
    ensures Mulberry32(-seed) == Mulberry32(seed)
  {
    AbsToInt32Neg(seed);
    assert Start(-seed) == Start(seed);
  }
}
