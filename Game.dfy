/** The values shown for one game: its RTP percentage, the betting strategy
    and the multiplier, all derived from the time bucket and the game
    identifier through one combined seed. */
module Game {
  import opened Int32
  import StringHash
  import Sampler
  import Prng
  import TimeSeed

  const RtpMin: int := 30
  const RtpMax: int := 99
  /** Only games at or above this RTP are announced. */
  const RtpThreshold: int := 80
  const NormalMin: int := 2
  const NormalMax: int := 15
  const AutoOptions: seq<int> := [10, 30, 50, 80]
  /** "Ativo" in mathematical bold capitals and small letters, and
      "Desativado" in mathematical sans-serif bold. */
  const TurboOptions: seq<string> := [
    "\U{1D400}\U{1D42D}\U{1D422}\U{1D42F}\U{1D428}",
    "\U{1D5D7}\U{1D5F2}\U{1D600}\U{1D5EE}\U{1D601}\U{1D5F6}\U{1D603}\U{1D5EE}\U{1D5F1}\U{1D5FC}"
  ]

  datatype Tier = Low | Medium | High

  /** One entry of the multiplier table: its label and its tier. */
  datatype Multiplier = Multiplier(value: string, tier: Tier)

  const Multipliers: seq<Multiplier> := [
    Multiplier("3X", Low), Multiplier("7X", Low),
    Multiplier("9X", Medium), Multiplier("10X", Medium), Multiplier("11X", Medium),
    Multiplier("13X", High), Multiplier("15X", High), Multiplier("17X", High), Multiplier("20X", High)
  ]

  /** The strategy dictionary: normal spins, auto spins and the turbo label. */
  datatype Strategy = Strategy(normal: int, auto: int, turbo: string)

  /** `time_seed * 1000 + game_hash`: the hash occupies the low part, so the
      seed lies between the scaled bucket and the scaled bucket plus 2^31. */
  function CombinedSeed(timeSeed: int, gameId: string): (seed: int)
    ensures timeSeed * 1000 <= seed <= timeSeed * 1000 + TwoTo31
    ensures seed - timeSeed * 1000 == StringHash.Hash(gameId)
  {
    timeSeed * 1000 + StringHash.Hash(gameId)
  }

  /** `generate_game_rtp`: a percentage in [30, 99]. */
  function GenerateGameRtp(timeSeed: int, gameId: string): (rtp: int)
    ensures RtpMin <= rtp <= RtpMax
  {
    Sampler.GetSeededRandomInt(CombinedSeed(timeSeed, gameId), RtpMin, RtpMax)
  }

  /** The body of `generate_game_strategy` once the combined seed is known:
      three draws at that seed plus 1000, 2000 and 3000.  The choices are
      never taken from an empty list. */
  function StrategyAt(base: int): (s: Strategy)
    ensures NormalMin <= s.normal <= NormalMax
    ensures s.auto in AutoOptions
    ensures s.turbo in TurboOptions
  {
    var normal := Sampler.GetSeededRandomInt(base + 1000, NormalMin, NormalMax);
    var auto := Sampler.GetSeededChoice(base + 2000, AutoOptions);
    var turbo := Sampler.GetSeededChoice(base + 3000, TurboOptions);
    Strategy(normal, auto.value, turbo.value)
  }

  /** A caller that hashes the identifier itself and adds the scaled time
      seed draws the same RTP. */
  lemma RtpOfHash(timeSeed: int, gameId: string, gameHash: int, combined: int)
    requires gameHash == StringHash.Hash(gameId) && combined == timeSeed * 1000 + gameHash
    ensures Sampler.GetSeededRandomInt(combined, RtpMin, RtpMax) == GenerateGameRtp(timeSeed, gameId)
  {
    assert combined == CombinedSeed(timeSeed, gameId);
  }

  /** `generate_game_strategy`. */
  function GenerateGameStrategy(timeSeed: int, gameId: string): (s: Strategy)
    ensures NormalMin <= s.normal <= NormalMax
    ensures s.auto in AutoOptions
    ensures s.turbo in TurboOptions
  {
    StrategyAt(CombinedSeed(timeSeed, gameId))
  }

  /** The table index drawn by `generate_multiplier`: the combined seed is
      multiplied by 7 and an integer in [0, 8] is drawn. */
  function MultiplierIndex(timeSeed: int, gameId: string): (i: int)
    ensures 0 <= i < |Multipliers|
  {
    Sampler.GetSeededRandomInt(CombinedSeed(timeSeed, gameId) * 7, 0, |Multipliers| - 1)
  }

  /** `generate_multiplier`: an entry of the multiplier table. */
  function GenerateMultiplier(timeSeed: int, gameId: string): (m: Multiplier)
    ensures m in Multipliers
    ensures m == Multipliers[MultiplierIndex(timeSeed, gameId)]
  {
    Multipliers[MultiplierIndex(timeSeed, gameId)]
  }

  /** Everything shown for a game depends on the identifier only through its
      hash: two identifiers with colliding hashes show identical values. */
  lemma SameHashSameValues(timeSeed: int, id1: string, id2: string)
    requires StringHash.Hash(id1) == StringHash.Hash(id2)
    ensures GenerateGameRtp(timeSeed, id1) == GenerateGameRtp(timeSeed, id2)
    ensures GenerateGameStrategy(timeSeed, id1) == GenerateGameStrategy(timeSeed, id2)
    ensures GenerateMultiplier(timeSeed, id1) == GenerateMultiplier(timeSeed, id2)
  {
    var seed := CombinedSeed(timeSeed, id1);
    assert seed == CombinedSeed(timeSeed, id2);
    assert MultiplierIndex(timeSeed, id1) == Sampler.GetSeededRandomInt(seed * 7, 0, |Multipliers| - 1);
    assert MultiplierIndex(timeSeed, id2) == Sampler.GetSeededRandomInt(seed * 7, 0, |Multipliers| - 1);
  }

  /** The RTP is the draw's numerator scaled by 70 with integer division: for
      this range size the double arithmetic of the sampler is exact. */
  lemma RtpIsIntegerScale(timeSeed: int, gameId: string)
    ensures GenerateGameRtp(timeSeed, gameId)
            == Prng.Mulberry32(Sampler.SeedTransform(CombinedSeed(timeSeed, gameId))) * 70 / TwoTo32 + RtpMin
  {
    var bits := Prng.Mulberry32(Sampler.SeedTransform(CombinedSeed(timeSeed, gameId)));
    Sampler.ScaleExact(bits, 70);
  }

  /** The turbo label is not independent of the RTP: the turbo draw uses
      the combined seed plus 3000, which is the combined seed of the time
      seed plus 3, and a size of 2 divides the size of 70 by 35.  So the
      label is the first one exactly when the RTP at the time seed plus 3 is
      below 65. */
  lemma TurboFollowsLaterRtp(timeSeed: int, later: int, gameId: string)
    requires later == timeSeed + TimeSeed.Window
    ensures GenerateGameStrategy(timeSeed, gameId).turbo
            == TurboOptions[(GenerateGameRtp(later, gameId) - RtpMin) / 35]
    ensures GenerateGameStrategy(timeSeed, gameId).turbo == TurboOptions[0]
            <==> GenerateGameRtp(later, gameId) < 65
  {
    var bits := Prng.Mulberry32(Sampler.SeedTransform(CombinedSeed(timeSeed, gameId) + 3000));
    var rtp := GenerateGameRtp(later, gameId);
    TurboIsScaled(timeSeed, gameId, bits);
    LaterRtpIsScaled(timeSeed, later, gameId, bits);
    HalfOfScale(bits, Sampler.ScaleToRange(bits, 2), rtp);
    FirstLabelBelow65(GenerateGameStrategy(timeSeed, gameId).turbo, rtp);
  }

  /** The clock only produces multiples of 3, and within a month the next
      3-minute window has the time seed plus 3: the turbo label shown now is
      "Ativo" exactly when the RTP shown in the next window is below 65. */
  lemma TurboForetellsNextWindow(t: TimeSeed.CivilTime, u: TimeSeed.CivilTime, gameId: string)
    requires t.year == u.year && t.month == u.month
    requires u.MinuteOfMonth() / TimeSeed.Window == t.MinuteOfMonth() / TimeSeed.Window + 1
    ensures GenerateGameStrategy(TimeSeed.TimeSeed(t), gameId).turbo
            == TurboOptions[(GenerateGameRtp(TimeSeed.TimeSeed(u), gameId) - RtpMin) / 35]
    ensures GenerateGameStrategy(TimeSeed.TimeSeed(t), gameId).turbo == TurboOptions[0]
            <==> GenerateGameRtp(TimeSeed.TimeSeed(u), gameId) < 65
  {
    TimeSeed.NextWindowAddsThree(t, u);
    TurboFollowsLaterRtp(TimeSeed.TimeSeed(t), TimeSeed.TimeSeed(u), gameId);
  }

  /** The turbo label is the one at the draw at the combined seed plus 3000,
      scaled to 2. */
  lemma TurboIsScaled(timeSeed: int, gameId: string, bits: int)
    requires bits == Prng.Mulberry32(Sampler.SeedTransform(CombinedSeed(timeSeed, gameId) + 3000))
    ensures 0 <= Sampler.ScaleToRange(bits, 2) < 2
    ensures GenerateGameStrategy(timeSeed, gameId).turbo == TurboOptions[Sampler.ScaleToRange(bits, 2)]
  {
    var base := CombinedSeed(timeSeed, gameId);
    assert GenerateGameStrategy(timeSeed, gameId).turbo == StrategyAt(base).turbo;
    Sampler.ChoiceIsScaled(base + 3000, |TurboOptions|, bits);
  }

  /** The RTP at the time seed plus 3 scales the same draw to 70: its
      combined seed is this one plus 3000. */
  lemma LaterRtpIsScaled(timeSeed: int, later: int, gameId: string, bits: int)
    requires later == timeSeed + TimeSeed.Window
    requires bits == Prng.Mulberry32(Sampler.SeedTransform(CombinedSeed(timeSeed, gameId) + 3000))
    ensures GenerateGameRtp(later, gameId) == Sampler.ScaleToRange(bits, 70) + RtpMin
  {
    var seed := CombinedSeed(timeSeed, gameId) + 3000;
    assert seed == CombinedSeed(later, gameId);
    Sampler.DrawIsScaled(seed, RtpMin, RtpMax, bits);
  }

  /** A draw scaled to 2 is the same draw scaled to 70, divided by 35. */
  lemma HalfOfScale(bits: int, index: int, rtp: int)
    requires 0 <= bits < TwoTo32
    requires index == Sampler.ScaleToRange(bits, 2) && rtp == Sampler.ScaleToRange(bits, 70) + RtpMin
    ensures index == (rtp - RtpMin) / 35
  {
    Sampler.ScaleExact(bits, 2);
    Sampler.ScaleExact(bits, 70);
    assert bits * 70 == 35 * (bits * 2);
    QuotientOfMultiple(bits * 2);
  }

  /** floor(floor(35 x / 2^32) / 35) == floor(x / 2^32) for x >= 0. */
  lemma QuotientOfMultiple(x: int)
    requires x >= 0
    ensures (35 * x / TwoTo32) / 35 == x / TwoTo32
  {
    var q, r := x / TwoTo32, x % TwoTo32;
    assert 35 * x == 35 * q * TwoTo32 + 35 * r;
    assert 0 <= 35 * r < 35 * TwoTo32;
    var d := 35 * r / TwoTo32;
    assert 0 <= d < 35;
    assert 35 * x / TwoTo32 == 35 * q + d;
  }

  /** The label picked by an RTP is the first one exactly below 65. */
  lemma FirstLabelBelow65(turbo: string, rtp: int)
    requires RtpMin <= rtp <= RtpMax && turbo == TurboOptions[(rtp - RtpMin) / 35]
    ensures turbo == TurboOptions[0] <==> rtp < 65
  {
    assert TurboOptions[0] != TurboOptions[1] by {
      assert |TurboOptions[0]| != |TurboOptions[1]|;
    }
  }

  /** The shown values change only when the 3-minute window changes: two
      instants of one month in the same window give the same values. */
  lemma StableWithinWindow(t: TimeSeed.CivilTime, u: TimeSeed.CivilTime, gameId: string)
    requires t.year == u.year && t.month == u.month
    requires t.MinuteOfMonth() / TimeSeed.Window == u.MinuteOfMonth() / TimeSeed.Window
    ensures GenerateGameRtp(TimeSeed.TimeSeed(t), gameId) == GenerateGameRtp(TimeSeed.TimeSeed(u), gameId)
    ensures GenerateGameStrategy(TimeSeed.TimeSeed(t), gameId) == GenerateGameStrategy(TimeSeed.TimeSeed(u), gameId)
    ensures GenerateMultiplier(TimeSeed.TimeSeed(t), gameId) == GenerateMultiplier(TimeSeed.TimeSeed(u), gameId)
  {
    TimeSeed.SameWindowSameSeed(t, u);
  }
}
