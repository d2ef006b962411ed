/** Concrete evaluations behind the recorded website values: the hash of
    each recorded identifier, the seed transform of each combined seed and
    the generator at each transformed seed, worked out stage by stage. */
module Oracle {
  import opened Int32
  import opened Binary64
  import StringHash
  import Prng
  import Sampler
  import Game

  /** The time seed the website showed when the values were recorded. */
  const RecordedTimeSeed: int := 1064842017

  const Fortune1: string := "PG SOFT/FORTUNE_1.webp"
  const Fortune2: string := "PG SOFT/FORTUNE_2.webp"
  const Fortune3: string := "PG SOFT/FORTUNE_3.webp"
  const Fortune4: string := "PG SOFT/FORTUNE_4.webp"
  const Fortune5: string := "PG SOFT/FORTUNE_5.webp"

  /** One more character folded into the hash accumulator. */
  lemma AccNext(s: string, k: nat, a: int, c: int, r: int, w: int)
    requires k < |s| && StringHash.Acc(s, k) == a && s[k] as int == c
    requires 31 * a + c == r + w * TwoTo32 && -TwoTo31 <= r < TwoTo31
    ensures StringHash.Acc(s, k + 1) == r
  {
    assert r - (31 * a + c) == (-w) * TwoTo32;
    ToInt32Unique(31 * a + c, r);
  }

  /** Math.imul of two words, from the quotient and the low word of their
      product. */
  lemma ImulOf(a: int, b: int, q: int, low: int)
    requires 0 <= a < TwoTo32 && 0 <= b < TwoTo32
    requires a * b == q * TwoTo32 + low && 0 <= low < TwoTo32
    ensures JsImul(a, b) == if low < TwoTo31 then low else low - TwoTo32
  {
    assert ToUint32(a) == a && ToUint32(b) == b;
    LowWord(a * b, q, low);
  }

  /** The remainder by 2^32 read off a quotient and remainder. */
  lemma LowWord(x: int, q: int, low: int)
    requires x == q * TwoTo32 + low && 0 <= low < TwoTo32
    ensures x % TwoTo32 == low
  {
  }

  /** The RTP of a game from the intermediate values of its computation. */
  lemma RtpFrom(timeSeed: int, gameId: string, hash: int, combined: int, seed: int, bits: int, rtp: int)
    requires StringHash.Hash(gameId) == hash && combined == timeSeed * 1000 + hash
    requires Sampler.SeedTransform(combined) == seed && Prng.Mulberry32(seed) == bits
    requires rtp == bits * 70 / TwoTo32 + Game.RtpMin
    ensures Game.GenerateGameRtp(timeSeed, gameId) == rtp
  {
    Game.RtpOfHash(timeSeed, gameId, hash, combined);
    DrawFrom(combined, seed, bits, rtp);
  }

  /** The sampler at a combined seed whose transform and draw are known. */
  lemma DrawFrom(combined: int, seed: int, bits: int, rtp: int)
    requires Sampler.SeedTransform(combined) == seed && Prng.Mulberry32(seed) == bits
    requires rtp == bits * 70 / TwoTo32 + Game.RtpMin
    ensures Sampler.GetSeededRandomInt(combined, Game.RtpMin, Game.RtpMax) == rtp
  {
    Sampler.DrawIsScaled(combined, Game.RtpMin, Game.RtpMax, bits);
    ScaledRtp(bits, rtp);
  }

  /** For a size of 70 the scaled draw is the integer quotient. */
  lemma ScaledRtp(bits: int, rtp: int)
    requires 0 <= bits < TwoTo32 && rtp == bits * 70 / TwoTo32 + Game.RtpMin
    ensures rtp == Sampler.ScaleToRange(bits, 70) + Game.RtpMin
  {
    Sampler.ScaleExact(bits, 70);
  }

  /** Every recorded identifier starts with "PG SOFT/FORTUNE_", which leaves
      the accumulator at -1141113286. */
  lemma SharedPrefixAcc(s: string)
    requires |s| >= 16
    requires s[0] == 'P' && s[1] == 'G' && s[2] == ' ' && s[3] == 'S' && s[4] == 'O' && s[5] == 'F'
    requires s[6] == 'T' && s[7] == '/' && s[8] == 'F' && s[9] == 'O' && s[10] == 'R' && s[11] == 'T'
    requires s[12] == 'U' && s[13] == 'N' && s[14] == 'E' && s[15] == '_'
    ensures StringHash.Acc(s, 16) == -1141113286
  {
    AccNext(s, 0, 0, 80, 80, 0);
    AccNext(s, 1, 80, 71, 2551, 0);
    AccNext(s, 2, 2551, 32, 79113, 0);
    AccNext(s, 3, 79113, 83, 2452586, 0);
    AccNext(s, 4, 2452586, 79, 76030245, 0);
    AccNext(s, 5, 76030245, 70, -1938029631, 1);
    AccNext(s, 6, -1938029631, 84, 50623667, -14);
    AccNext(s, 7, 50623667, 47, 1569333724, 0);
    AccNext(s, 8, 1569333724, 70, 1404705258, 11);
    AccNext(s, 9, 1404705258, 79, 596190117, 10);
    AccNext(s, 10, 596190117, 82, 1302024525, 4);
    AccNext(s, 11, 1302024525, 84, 1708054695, 9);
    AccNext(s, 12, 1708054695, 85, 1410088078, 12);
    AccNext(s, 13, 1410088078, 78, 763057536, 10);
    AccNext(s, 14, 763057536, 69, -2115020091, 6);
    AccNext(s, 15, -2115020091, 95, -1141113286, -15);
  }

  /** The hash of any string spelled "PG SOFT/FORTUNE_1.webp". */
  lemma Fortune1HashOf(s: string)
    requires |s| == 22
    requires s[0] == 'P' && s[1] == 'G' && s[2] == ' ' && s[3] == 'S' && s[4] == 'O' && s[5] == 'F'
    requires s[6] == 'T' && s[7] == '/' && s[8] == 'F' && s[9] == 'O' && s[10] == 'R' && s[11] == 'T'
    requires s[12] == 'U' && s[13] == 'N' && s[14] == 'E' && s[15] == '_' && s[16] == '1' && s[17] == '.'
    requires s[18] == 'w' && s[19] == 'e' && s[20] == 'b' && s[21] == 'p'
    ensures StringHash.Hash(s) == 1426864627
  {
    SharedPrefixAcc(s);
    Fortune1Tail(s);
  }

  /** The last six characters of "PG SOFT/FORTUNE_1.webp" take the accumulator from
      -1141113286 to 1426864627. */
  lemma Fortune1Tail(s: string)
    requires |s| == 22 && StringHash.Acc(s, 16) == -1141113286
    requires s[16] == '1' && s[17] == '.' && s[18] == 'w' && s[19] == 'e' && s[20] == 'b' && s[21] == 'p'
    ensures StringHash.Acc(s, 22) == 1426864627
  {
    AccNext(s, 16, -1141113286, 49, -1014773449, -8);
    AccNext(s, 17, -1014773449, 46, -1393205801, -7);
    AccNext(s, 18, -1393205801, 119, -239706752, -10);
    AccNext(s, 19, -239706752, 101, 1159025381, -2);
    AccNext(s, 20, 1159025381, 98, 1570048541, 8);
    AccNext(s, 21, 1570048541, 112, 1426864627, 11);
  }

  /** `string_to_hash("PG SOFT/FORTUNE_1.webp")`. */
  lemma Fortune1Hash()
    ensures StringHash.Hash(Fortune1) == 1426864627
  {
    Fortune1HashOf(Fortune1);
  }

  /** The double-precision seed transform of FORTUNE_1's combined seed:
      1066268881627 * 9301 rounds to 9917366868012728 and adding 49297 rounds to 9917366868062024. */
  lemma Fortune1Transform()
    ensures Sampler.SeedTransform(1066268881627) == 191624
  {
    assert RoundToDouble(1066268881627) == 1066268881627;
    assert Spacing(9917366868012727) == 2 * Spacing(4958683434006363) == 2;
    assert RoundToDouble(9917366868012727) == 9917366868012728;
    assert Spacing(9917366868062025) == 2 * Spacing(4958683434031012) == 2;
    assert RoundToDouble(9917366868062025) == 9917366868062024;
  }

  lemma ImulAt191624Multiply()
    ensures JsImul(1831779361, 1831757437) == -910884323
  {
    ImulOf(1831779361, 1831757437, 781234229, 3384082973);
  }

  lemma ImulAt191624Add()
    ensures JsImul(3357960217, 3384083005) == 950271989
  {
    ImulOf(3357960217, 3384083005, 2645798051, 950271989);
  }

  lemma DrawAt191624Multiply()
    ensures Prng.MixMultiply(1831757437) == 3384082973
  {
    assert 1831757437 / 0x8000 == 55900;
    WordRoundTrip(1831757437);
    WordRoundTrip(55900);
    XorOnWords(1831757437, 55900, 1831757437, 55900);
    WordRoundTrip(1);
    OrOnWords(1831757437, 1, 1831757437, 1);
    ImulAt191624Multiply();
  }

  lemma DrawAt191624Add()
    ensures Prng.MixAdd(3384082973) == 3421241359
  {
    assert 3384082973 / 0x80 == 26438148;
    WordRoundTrip(3384082973);
    WordRoundTrip(26438148);
    XorOnWords(3384082973, 26438148, 3384082973, 26438148);
    WordRoundTrip(61);
    OrOnWords(3384082973, 61, 3384082973, 61);
    ImulAt191624Add();
    assert ToUint32(3384082973 + 950271989) == 39387666;
    WordRoundTrip(39387666);
    XorOnWords(3384082973, 39387666, 3384082973, 39387666);
  }

  lemma DrawAt191624Finish()
    ensures Prng.Finish(3421241359) == 3421450175
  {
    assert 3421241359 / 0x4000 == 208816;
    WordRoundTrip(3421241359);
    WordRoundTrip(208816);
    XorOnWords(3421241359, 208816, 3421241359, 208816);
  }

  /** The generator's numerator at seed 191624. */
  lemma DrawAt191624()
    ensures Prng.Mulberry32(191624) == 3421450175
  {
    assert Prng.Start(191624) == 1831757437;
    DrawAt191624Multiply();
    DrawAt191624Add();
    DrawAt191624Finish();
  }

  /** `generate_game_rtp` for FORTUNE_1 at the recorded time seed. */
  lemma Fortune1Rtp()
    ensures Game.GenerateGameRtp(RecordedTimeSeed, Fortune1) == 85
  {
    Fortune1Hash();
    Fortune1Transform();
    DrawAt191624();
    RtpFrom(RecordedTimeSeed, Fortune1, 1426864627, 1066268881627, 191624, 3421450175, 85);
  }

  /** The hash of any string spelled "PG SOFT/FORTUNE_2.webp". */
  lemma Fortune2HashOf(s: string)
    requires |s| == 22
    requires s[0] == 'P' && s[1] == 'G' && s[2] == ' ' && s[3] == 'S' && s[4] == 'O' && s[5] == 'F'
    requires s[6] == 'T' && s[7] == '/' && s[8] == 'F' && s[9] == 'O' && s[10] == 'R' && s[11] == 'T'
    requires s[12] == 'U' && s[13] == 'N' && s[14] == 'E' && s[15] == '_' && s[16] == '2' && s[17] == '.'
    requires s[18] == 'w' && s[19] == 'e' && s[20] == 'b' && s[21] == 'p'
    ensures StringHash.Hash(s) == 1455493778
  {
    SharedPrefixAcc(s);
    Fortune2Tail(s);
  }

  /** The last six characters of "PG SOFT/FORTUNE_2.webp" take the accumulator from
      -1141113286 to 1455493778. */
  lemma Fortune2Tail(s: string)
    requires |s| == 22 && StringHash.Acc(s, 16) == -1141113286
    requires s[16] == '2' && s[17] == '.' && s[18] == 'w' && s[19] == 'e' && s[20] == 'b' && s[21] == 'p'
    ensures StringHash.Acc(s, 22) == 1455493778
  {
    AccNext(s, 16, -1141113286, 50, -1014773448, -8);
    AccNext(s, 17, -1014773448, 46, -1393205770, -7);
    AccNext(s, 18, -1393205770, 119, -239705791, -10);
    AccNext(s, 19, -239705791, 101, 1159055172, -2);
    AccNext(s, 20, 1159055172, 98, 1570972062, 8);
    AccNext(s, 21, 1570972062, 112, 1455493778, 11);
  }

  /** `string_to_hash("PG SOFT/FORTUNE_2.webp")`. */
  lemma Fortune2Hash()
    ensures StringHash.Hash(Fortune2) == 1455493778
  {
    Fortune2HashOf(Fortune2);
  }

  /** The double-precision seed transform of FORTUNE_2's combined seed:
      1066297510778 * 9301 rounds to 9917633147746178 and adding 49297 rounds to 9917633147795476. */
  lemma Fortune2Transform()
    ensures Sampler.SeedTransform(1066297510778) == 136276
  {
    assert RoundToDouble(1066297510778) == 1066297510778;
    assert Spacing(9917633147746178) == 2 * Spacing(4958816573873089) == 2;
    assert RoundToDouble(9917633147746178) == 9917633147746178;
    assert Spacing(9917633147795475) == 2 * Spacing(4958816573897737) == 2;
    assert RoundToDouble(9917633147795475) == 9917633147795476;
  }

  lemma ImulAt136276Multiply()
    ensures JsImul(1831687186, 1831702089) == -1212615390
  {
    ImulOf(1831687186, 1831702089, 781171313, 3082351906);
  }

  lemma ImulAt136276Add()
    ensures JsImul(3067577544, 3082351935) == -1461906120
  {
    ImulOf(3067577544, 3082351935, 2201496059, 2833061176);
  }

  lemma DrawAt136276Multiply()
    ensures Prng.MixMultiply(1831702089) == 3082351906
  {
    assert 1831702089 / 0x8000 == 55899;
    WordRoundTrip(1831702089);
    WordRoundTrip(55899);
    XorOnWords(1831702089, 55899, 1831702089, 55899);
    WordRoundTrip(1);
    OrOnWords(1831702089, 1, 1831702089, 1);
    ImulAt136276Multiply();
  }

  lemma DrawAt136276Add()
    ensures Prng.MixAdd(3082351906) == 3610181496
  {
    assert 3082351906 / 0x80 == 24080874;
    WordRoundTrip(3082351906);
    WordRoundTrip(24080874);
    XorOnWords(3082351906, 24080874, 3082351906, 24080874);
    WordRoundTrip(61);
    OrOnWords(3082351906, 61, 3082351906, 61);
    ImulAt136276Add();
    assert ToUint32(3082351906 + -1461906120) == 1620445786;
    WordRoundTrip(1620445786);
    XorOnWords(3082351906, 1620445786, 3082351906, 1620445786);
  }

  lemma DrawAt136276Finish()
    ensures Prng.Finish(3610181496) == 3610092483
  {
    assert 3610181496 / 0x4000 == 220347;
    WordRoundTrip(3610181496);
    WordRoundTrip(220347);
    XorOnWords(3610181496, 220347, 3610181496, 220347);
  }

  /** The generator's numerator at seed 136276. */
  lemma DrawAt136276()
    ensures Prng.Mulberry32(136276) == 3610092483
  {
    assert Prng.Start(136276) == 1831702089;
    DrawAt136276Multiply();
    DrawAt136276Add();
    DrawAt136276Finish();
  }

  /** `generate_game_rtp` for FORTUNE_2 at the recorded time seed. */
  lemma Fortune2Rtp()
    ensures Game.GenerateGameRtp(RecordedTimeSeed, Fortune2) == 88
  {
    Fortune2Hash();
    Fortune2Transform();
    DrawAt136276();
    RtpFrom(RecordedTimeSeed, Fortune2, 1455493778, 1066297510778, 136276, 3610092483, 88);
  }

  /** The hash of any string spelled "PG SOFT/FORTUNE_3.webp". */
  lemma Fortune3HashOf(s: string)
    requires |s| == 22
    requires s[0] == 'P' && s[1] == 'G' && s[2] == ' ' && s[3] == 'S' && s[4] == 'O' && s[5] == 'F'
    requires s[6] == 'T' && s[7] == '/' && s[8] == 'F' && s[9] == 'O' && s[10] == 'R' && s[11] == 'T'
    requires s[12] == 'U' && s[13] == 'N' && s[14] == 'E' && s[15] == '_' && s[16] == '3' && s[17] == '.'
    requires s[18] == 'w' && s[19] == 'e' && s[20] == 'b' && s[21] == 'p'
    ensures StringHash.Hash(s) == 1484122929
  {
    SharedPrefixAcc(s);
    Fortune3Tail(s);
  }

  /** The last six characters of "PG SOFT/FORTUNE_3.webp" take the accumulator from
      -1141113286 to 1484122929. */
  lemma Fortune3Tail(s: string)
    requires |s| == 22 && StringHash.Acc(s, 16) == -1141113286
    requires s[16] == '3' && s[17] == '.' && s[18] == 'w' && s[19] == 'e' && s[20] == 'b' && s[21] == 'p'
    ensures StringHash.Acc(s, 22) == 1484122929
  {
    AccNext(s, 16, -1141113286, 51, -1014773447, -8);
    AccNext(s, 17, -1014773447, 46, -1393205739, -7);
    AccNext(s, 18, -1393205739, 119, -239704830, -10);
    AccNext(s, 19, -239704830, 101, 1159084963, -2);
    AccNext(s, 20, 1159084963, 98, 1571895583, 8);
    AccNext(s, 21, 1571895583, 112, 1484122929, 11);
  }

  /** `string_to_hash("PG SOFT/FORTUNE_3.webp")`. */
  lemma Fortune3Hash()
    ensures StringHash.Hash(Fortune3) == 1484122929
  {
    Fortune3HashOf(Fortune3);
  }

  /** The double-precision seed transform of FORTUNE_3's combined seed:
      1066326139929 * 9301 rounds to 9917899427479628 and adding 49297 rounds to 9917899427528924. */
  lemma Fortune3Transform()
    ensures Sampler.SeedTransform(1066326139929) == 80924
  {
    assert RoundToDouble(1066326139929) == 1066326139929;
    assert Spacing(9917899427479629) == 2 * Spacing(4958949713739814) == 2;
    assert RoundToDouble(9917899427479629) == 9917899427479628;
    assert Spacing(9917899427528925) == 2 * Spacing(4958949713764462) == 2;
    assert RoundToDouble(9917899427528925) == 9917899427528924;
  }

  lemma ImulAt80924Multiply()
    ensures JsImul(1831627848, 1831646737) == 424566984
  {
    ImulOf(1831627848, 1831646737, 781122402, 424566984);
  }

  lemma ImulAt80924Add()
    ensures JsImul(427621385, 424567037) == -1161399067
  {
    ImulOf(427621385, 424567037, 42271321, 3133568229);
  }

  lemma DrawAt80924Multiply()
    ensures Prng.MixMultiply(1831646737) == 424566984
  {
    assert 1831646737 / 0x8000 == 55897;
    WordRoundTrip(1831646737);
    WordRoundTrip(55897);
    XorOnWords(1831646737, 55897, 1831646737, 55897);
    WordRoundTrip(1);
    OrOnWords(1831646737, 1, 1831646737, 1);
    ImulAt80924Multiply();
  }

  lemma DrawAt80924Add()
    ensures Prng.MixAdd(424566984) == 3445273957
  {
    assert 424566984 / 0x80 == 3316929;
    WordRoundTrip(424566984);
    WordRoundTrip(3316929);
    XorOnWords(424566984, 3316929, 424566984, 3316929);
    WordRoundTrip(61);
    OrOnWords(424566984, 61, 424566984, 61);
    ImulAt80924Add();
    assert ToUint32(424566984 + -1161399067) == 3558135213;
    WordRoundTrip(3558135213);
    XorOnWords(424566984, 3558135213, 424566984, 3558135213);
  }

  lemma DrawAt80924Finish()
    ensures Prng.Finish(3445273957) == 3445194767
  {
    assert 3445273957 / 0x4000 == 210282;
    WordRoundTrip(3445273957);
    WordRoundTrip(210282);
    XorOnWords(3445273957, 210282, 3445273957, 210282);
  }

  /** The generator's numerator at seed 80924. */
  lemma DrawAt80924()
    ensures Prng.Mulberry32(80924) == 3445194767
  {
    assert Prng.Start(80924) == 1831646737;
    DrawAt80924Multiply();
    DrawAt80924Add();
    DrawAt80924Finish();
  }

  /** `generate_game_rtp` for FORTUNE_3 at the recorded time seed. */
  lemma Fortune3Rtp()
    ensures Game.GenerateGameRtp(RecordedTimeSeed, Fortune3) == 86
  {
    Fortune3Hash();
    Fortune3Transform();
    DrawAt80924();
    RtpFrom(RecordedTimeSeed, Fortune3, 1484122929, 1066326139929, 80924, 3445194767, 86);
  }

  /** The hash of any string spelled "PG SOFT/FORTUNE_4.webp". */
  lemma Fortune4HashOf(s: string)
    requires |s| == 22
    requires s[0] == 'P' && s[1] == 'G' && s[2] == ' ' && s[3] == 'S' && s[4] == 'O' && s[5] == 'F'
    requires s[6] == 'T' && s[7] == '/' && s[8] == 'F' && s[9] == 'O' && s[10] == 'R' && s[11] == 'T'
    requires s[12] == 'U' && s[13] == 'N' && s[14] == 'E' && s[15] == '_' && s[16] == '4' && s[17] == '.'
    requires s[18] == 'w' && s[19] == 'e' && s[20] == 'b' && s[21] == 'p'
    ensures StringHash.Hash(s) == 1512752080
  {
    SharedPrefixAcc(s);
    Fortune4Tail(s);
  }

  /** The last six characters of "PG SOFT/FORTUNE_4.webp" take the accumulator from
      -1141113286 to 1512752080. */
  lemma Fortune4Tail(s: string)
    requires |s| == 22 && StringHash.Acc(s, 16) == -1141113286
    requires s[16] == '4' && s[17] == '.' && s[18] == 'w' && s[19] == 'e' && s[20] == 'b' && s[21] == 'p'
    ensures StringHash.Acc(s, 22) == 1512752080
  {
    AccNext(s, 16, -1141113286, 52, -1014773446, -8);
    AccNext(s, 17, -1014773446, 46, -1393205708, -7);
    AccNext(s, 18, -1393205708, 119, -239703869, -10);
    AccNext(s, 19, -239703869, 101, 1159114754, -2);
    AccNext(s, 20, 1159114754, 98, 1572819104, 8);
    AccNext(s, 21, 1572819104, 112, 1512752080, 11);
  }

  /** `string_to_hash("PG SOFT/FORTUNE_4.webp")`. */
  lemma Fortune4Hash()
    ensures StringHash.Hash(Fortune4) == 1512752080
  {
    Fortune4HashOf(Fortune4);
  }

  /** The double-precision seed transform of FORTUNE_4's combined seed:
      1066354769080 * 9301 rounds to 9918165707213080 and adding 49297 rounds to 9918165707262376. */
  lemma Fortune4Transform()
    ensures Sampler.SeedTransform(1066354769080) == 25576
  {
    assert RoundToDouble(1066354769080) == 1066354769080;
    assert Spacing(9918165707213080) == 2 * Spacing(4959082853606540) == 2;
    assert RoundToDouble(9918165707213080) == 9918165707213080;
    assert Spacing(9918165707262377) == 2 * Spacing(4959082853631188) == 2;
    assert RoundToDouble(9918165707262377) == 9918165707262376;
  }

  lemma ImulAt25576Multiply()
    ensures JsImul(1831536522, 1831591389) == 1775608866
  {
    ImulOf(1831536522, 1831591389, 781059852, 1775608866);
  }

  lemma ImulAt25576Add()
    ensures JsImul(1762004842, 1775608895) == 126858006
  {
    ImulOf(1762004842, 1775608895, 728441279, 126858006);
  }

  lemma DrawAt25576Multiply()
    ensures Prng.MixMultiply(1831591389) == 1775608866
  {
    assert 1831591389 / 0x8000 == 55895;
    WordRoundTrip(1831591389);
    WordRoundTrip(55895);
    XorOnWords(1831591389, 55895, 1831591389, 55895);
    WordRoundTrip(1);
    OrOnWords(1831591389, 1, 1831591389, 1);
    ImulAt25576Multiply();
  }

  lemma DrawAt25576Add()
    ensures Prng.MixAdd(1775608866) == 414249754
  {
    assert 1775608866 / 0x80 == 13871944;
    WordRoundTrip(1775608866);
    WordRoundTrip(13871944);
    XorOnWords(1775608866, 13871944, 1775608866, 13871944);
    WordRoundTrip(61);
    OrOnWords(1775608866, 61, 1775608866, 61);
    ImulAt25576Add();
    assert ToUint32(1775608866 + 126858006) == 1902466872;
    WordRoundTrip(1902466872);
    XorOnWords(1775608866, 1902466872, 1775608866, 1902466872);
  }

  lemma DrawAt25576Finish()
    ensures Prng.Finish(414249754) == 414224857
  {
    assert 414249754 / 0x4000 == 25283;
    WordRoundTrip(414249754);
    WordRoundTrip(25283);
    XorOnWords(414249754, 25283, 414249754, 25283);
  }

  /** The generator's numerator at seed 25576. */
  lemma DrawAt25576()
    ensures Prng.Mulberry32(25576) == 414224857
  {
    assert Prng.Start(25576) == 1831591389;
    DrawAt25576Multiply();
    DrawAt25576Add();
    DrawAt25576Finish();
  }

  /** `generate_game_rtp` for FORTUNE_4 at the recorded time seed. */
  lemma Fortune4Rtp()
    ensures Game.GenerateGameRtp(RecordedTimeSeed, Fortune4) == 36
  {
    Fortune4Hash();
    Fortune4Transform();
    DrawAt25576();
    RtpFrom(RecordedTimeSeed, Fortune4, 1512752080, 1066354769080, 25576, 414224857, 36);
  }

  /** The hash of any string spelled "PG SOFT/FORTUNE_5.webp". */
  lemma Fortune5HashOf(s: string)
    requires |s| == 22
    requires s[0] == 'P' && s[1] == 'G' && s[2] == ' ' && s[3] == 'S' && s[4] == 'O' && s[5] == 'F'
    requires s[6] == 'T' && s[7] == '/' && s[8] == 'F' && s[9] == 'O' && s[10] == 'R' && s[11] == 'T'
    requires s[12] == 'U' && s[13] == 'N' && s[14] == 'E' && s[15] == '_' && s[16] == '5' && s[17] == '.'
    requires s[18] == 'w' && s[19] == 'e' && s[20] == 'b' && s[21] == 'p'
    ensures StringHash.Hash(s) == 1541381231
  {
    SharedPrefixAcc(s);
    Fortune5Tail(s);
  }

  /** The last six characters of "PG SOFT/FORTUNE_5.webp" take the accumulator from
      -1141113286 to 1541381231. */
  lemma Fortune5Tail(s: string)
    requires |s| == 22 && StringHash.Acc(s, 16) == -1141113286
    requires s[16] == '5' && s[17] == '.' && s[18] == 'w' && s[19] == 'e' && s[20] == 'b' && s[21] == 'p'
    ensures StringHash.Acc(s, 22) == 1541381231
  {
    AccNext(s, 16, -1141113286, 53, -1014773445, -8);
    AccNext(s, 17, -1014773445, 46, -1393205677, -7);
    AccNext(s, 18, -1393205677, 119, -239702908, -10);
    AccNext(s, 19, -239702908, 101, 1159144545, -2);
    AccNext(s, 20, 1159144545, 98, 1573742625, 8);
    AccNext(s, 21, 1573742625, 112, 1541381231, 11);
  }

  /** `string_to_hash("PG SOFT/FORTUNE_5.webp")`. */
  lemma Fortune5Hash()
    ensures StringHash.Hash(Fortune5) == 1541381231
  {
    Fortune5HashOf(Fortune5);
  }

  /** The double-precision seed transform of FORTUNE_5's combined seed:
      1066383398231 * 9301 rounds to 9918431986946532 and adding 49297 rounds to 9918431986995828. */
  lemma Fortune5Transform()
    ensures Sampler.SeedTransform(1066383398231) == 203508
  {
    assert RoundToDouble(1066383398231) == 1066383398231;
    assert Spacing(9918431986946531) == 2 * Spacing(4959215993473265) == 2;
    assert RoundToDouble(9918431986946531) == 9918431986946532;
    assert Spacing(9918431986995829) == 2 * Spacing(4959215993497914) == 2;
    assert RoundToDouble(9918431986995829) == 9918431986995828;
  }

  lemma ImulAt203508Multiply()
    ensures JsImul(1831751348, 1831769321) == -318918188
  {
    ImulOf(1831751348, 1831769321, 781227350, 3976049108);
  }

  lemma ImulAt203508Add()
    ensures JsImul(3978578615, 3976049149) == -10396197
  {
    ImulOf(3978578615, 3976049149, 3683153566, 4284571099);
  }

  lemma DrawAt203508Multiply()
    ensures Prng.MixMultiply(1831769321) == 3976049108
  {
    assert 1831769321 / 0x8000 == 55901;
    WordRoundTrip(1831769321);
    WordRoundTrip(55901);
    XorOnWords(1831769321, 55901, 1831769321, 55901);
    WordRoundTrip(1);
    OrOnWords(1831769321, 1, 1831769321, 1);
    ImulAt203508Multiply();
  }

  lemma DrawAt203508Add()
    ensures Prng.MixAdd(3976049108) == 10665595
  {
    assert 3976049108 / 0x80 == 31062883;
    WordRoundTrip(3976049108);
    WordRoundTrip(31062883);
    XorOnWords(3976049108, 31062883, 3976049108, 31062883);
    WordRoundTrip(61);
    OrOnWords(3976049108, 61, 3976049108, 61);
    ImulAt203508Add();
    assert ToUint32(3976049108 + -10396197) == 3965652911;
    WordRoundTrip(3965652911);
    XorOnWords(3976049108, 3965652911, 3976049108, 3965652911);
  }

  lemma DrawAt203508Finish()
    ensures Prng.Finish(10665595) == 10665201
  {
    assert 10665595 / 0x4000 == 650;
    WordRoundTrip(10665595);
    WordRoundTrip(650);
    XorOnWords(10665595, 650, 10665595, 650);
  }

  /** The generator's numerator at seed 203508. */
  lemma DrawAt203508()
    ensures Prng.Mulberry32(203508) == 10665201
  {
    assert Prng.Start(203508) == 1831769321;
    DrawAt203508Multiply();
    DrawAt203508Add();
    DrawAt203508Finish();
  }

  /** `generate_game_rtp` for FORTUNE_5 at the recorded time seed. */
  lemma Fortune5Rtp()
    ensures Game.GenerateGameRtp(RecordedTimeSeed, Fortune5) == 30
  {
    Fortune5Hash();
    Fortune5Transform();
    DrawAt203508();
    RtpFrom(RecordedTimeSeed, Fortune5, 1541381231, 1066383398231, 203508, 10665201, 30);
  }

  lemma ImulAt136275Multiply()
    ensures JsImul(1831687187, 1831702089) == 619086699
  {
    ImulOf(1831687187, 1831702089, 781171314, 619086699);
  }

  lemma ImulAt136275Add()
    ensures JsImul(615468653, 619086719) == -1308119277
  {
    ImulOf(615468653, 619086719, 88715103, 2986848019);
  }

  lemma DrawAt136275Multiply()
    ensures Prng.MixMultiply(1831702088) == 619086699
  {
    assert 1831702088 / 0x8000 == 55899;
    WordRoundTrip(1831702088);
    WordRoundTrip(55899);
    XorOnWords(1831702088, 55899, 1831702088, 55899);
    WordRoundTrip(1);
    OrOnWords(1831702088, 1, 1831702088, 1);
    ImulAt136275Multiply();
  }

  lemma DrawAt136275Add()
    ensures Prng.MixAdd(619086699) == 4060655893
  {
    assert 619086699 / 0x80 == 4836614;
    WordRoundTrip(619086699);
    WordRoundTrip(4836614);
    XorOnWords(619086699, 4836614, 619086699, 4836614);
    WordRoundTrip(61);
    OrOnWords(619086699, 61, 619086699, 61);
    ImulAt136275Add();
    assert ToUint32(619086699 + -1308119277) == 3605934718;
    WordRoundTrip(3605934718);
    XorOnWords(619086699, 3605934718, 619086699, 3605934718);
  }

  lemma DrawAt136275Finish()
    ensures Prng.Finish(4060655893) == 4060838199
  {
    assert 4060655893 / 0x4000 == 247842;
    WordRoundTrip(4060655893);
    WordRoundTrip(247842);
    XorOnWords(4060655893, 247842, 4060655893, 247842);
  }

  /** The generator's numerator at seed 136275. */
  lemma DrawAt136275()
    ensures Prng.Mulberry32(136275) == 4060838199
  {
    assert Prng.Start(136275) == 1831702088;
    DrawAt136275Multiply();
    DrawAt136275Add();
    DrawAt136275Finish();
  }
}
