/** debug_rtp.py: a trace of one RTP computation, step by step.  Its
    `string_to_hash`, `js_imul` and `seeded_random` are the same as
    kiki2test.py's; its `get_seeded_random_int` and the traced seed
    transform compute `(seed * 9301 + 49297) % 233280` on Python integers,
    exactly, where the website and the bot round each step to a double. */
module DebugRtp {
  import opened Int32
  import opened Binary64
  import StringHash
  import Prng
  import Sampler
  import Game
  import Oracle

  /** The exact transform: Python's `%` by a positive modulus is the floored
      remainder, so the result is a valid index below the modulus. */
  function ExactTransform(seed: int): (r: int)
    ensures 0 <= r < Sampler.Modulus
  {
    (seed * Sampler.Multiplier + Sampler.Increment) % Sampler.Modulus
  }

  /** Whenever the seed, its product with 9301 and the sum all stay within
      2^53, no double rounding happens and the exact transform is the float
      one. */
  lemma ExactAgreesBelow2To53(seed: int)
    requires Abs(seed) * Sampler.Multiplier + Sampler.Increment <= TwoTo53
    ensures ExactTransform(seed) == Sampler.SeedTransform(seed)
  {
    var p := seed * Sampler.Multiplier;
    assert Abs(p) == Abs(seed) * Sampler.Multiplier;
    ExactUpTo2To53(seed);
    ExactUpTo2To53(p);
    ExactUpTo2To53(p + Sampler.Increment);
  }

  /** `get_seeded_random_int` of debug_rtp.py: an integer in [min_val,
      max_val] whenever the range is not empty. */
  function GetSeededRandomIntExact(seed: int, minVal: int, maxVal: int): (r: int)
    ensures minVal <= maxVal ==> minVal <= r <= maxVal
  {
    var bits := Prng.Mulberry32(ExactTransform(seed));
    Sampler.ScaleBounds(bits, maxVal - minVal + 1);
    Sampler.ScaleToRange(bits, maxVal - minVal + 1) + minVal
  }

  /** Below the 2^53 bound the exact sampler draws what the float sampler
      draws. */
  lemma ExactSamplerAgreesBelow2To53(seed: int, minVal: int, maxVal: int)
    requires Abs(seed) * Sampler.Multiplier + Sampler.Increment <= TwoTo53
    ensures GetSeededRandomIntExact(seed, minVal, maxVal) == Sampler.GetSeededRandomInt(seed, minVal, maxVal)
  {
    ExactAgreesBelow2To53(seed);
  }

  /** A draw worked out from the transformed seed is the exact sampler's. */
  lemma ExactDraw(seed: int, transformed: int, numerator: int, rtp: int)
    requires transformed == (seed * 9301 + 49297) % 233280
    requires numerator == Prng.Mulberry32(transformed)
    requires rtp == Sampler.ScaleToRange(numerator, 70) + 30
    ensures transformed == ExactTransform(seed)
    ensures rtp == GetSeededRandomIntExact(seed, Game.RtpMin, Game.RtpMax)
    ensures Game.RtpMin <= rtp <= Game.RtpMax
  {
  }

  /** The script's trace for one game at one time seed: the hash, the
      combined seed, the exactly transformed seed and the RTP drawn from it. */
  method Trace(timeSeed: int, gameId: string)
    returns (gameHash: int, combinedSeed: int, seedAfterTransform: int, rtp: int)
    ensures gameHash == StringHash.Hash(gameId)
    ensures combinedSeed == Game.CombinedSeed(timeSeed, gameId)
    ensures seedAfterTransform == ExactTransform(combinedSeed)
    ensures rtp == GetSeededRandomIntExact(combinedSeed, Game.RtpMin, Game.RtpMax)
    ensures Game.RtpMin <= rtp <= Game.RtpMax
  {
    gameHash := StringHash.StringToHash(gameId);
    combinedSeed := timeSeed * 1000 + gameHash;
    assert combinedSeed == Game.CombinedSeed(timeSeed, gameId);
    seedAfterTransform := (combinedSeed * 9301 + 49297) % 233280;
    var numerator := Prng.SeededRandom(seedAfterTransform);
    rtp := Sampler.ScaleToRange(numerator, 99 - 30 + 1) + 30;
    ExactDraw(combinedSeed, seedAfterTransform, numerator, rtp);
  }

  /** The trace at the script's own inputs: FORTUNE_2 at time seed
      1064842017.  The combined seed times 9301 is above 2^53, the exact
      transform gives 136275 where the double transform gives 136276, and
      the exact draw shows 96 where the website, and the float model, show
      88. */
  lemma ExactTraceMissesFortune2()
    ensures Game.CombinedSeed(Oracle.RecordedTimeSeed, Oracle.Fortune2) == 1066297510778
    ensures ExactTransform(1066297510778) == 136275
    ensures Sampler.SeedTransform(1066297510778) == 136276
    ensures GetSeededRandomIntExact(1066297510778, Game.RtpMin, Game.RtpMax) == 96
    ensures Game.GenerateGameRtp(Oracle.RecordedTimeSeed, Oracle.Fortune2) == 88
  {
    Oracle.Fortune2Hash();
    Oracle.Fortune2Transform();
    Oracle.Fortune2Rtp();
    ExactDrawAtFortune2();
  }

  /** The exact draw at FORTUNE_2's combined seed. */
  lemma ExactDrawAtFortune2()
    ensures ExactTransform(1066297510778) == 136275
    ensures GetSeededRandomIntExact(1066297510778, Game.RtpMin, Game.RtpMax) == 96
  {
    ExactTransformAtFortune2();
    Oracle.DrawAt136275();
    Sampler.ScaleExact(4060838199, 70);
    ExactDraw(1066297510778, 136275, 4060838199, 96);
  }

  /** 1066297510778 * 9301 + 49297 is 9917633147795475, whose floored
      remainder by 233280 is 136275. */
  lemma ExactTransformAtFortune2()
    ensures (1066297510778 * 9301 + 49297) % 233280 == 136275
  {
    assert 1066297510778 * 9301 + 49297 == 9917633147795475;
    assert 9917633147795475 == 233280 * 42513859515 + 136275;
  }
}
