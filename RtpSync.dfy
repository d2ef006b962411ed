/** test_rtp_sync.py: a copy of the RTP functions used to compare the bot's
    values with the website's.  Its `to_int32`, `to_uint32`, `string_to_hash`,
    `get_time_seed`, `js_imul`, `seeded_random` and `get_seeded_random_int`
    are the same as kiki2test.py's and are modelled once, in Int32,
    StringHash, TimeSeed, Prng and Sampler; `generate_rtp`, which also
    reports the intermediate values, is its own. */
module RtpSync {
  import StringHash
  import Sampler
  import Game
  import TimeSeed
  import Oracle

  /** The tuple `(rtp, game_hash, time_seed, combined_seed)`. */
  datatype RtpReport = RtpReport(rtp: int, gameHash: int, timeSeed: int, combinedSeed: int)

  /** The body of `generate_rtp` once the clock has been read: the report
      carries the bot's `generate_game_rtp` at the same time seed, and the
      hash and combined seed that RTP is drawn from. */
  function ReportAt(timeSeed: int, gameId: string): (r: RtpReport)
    ensures r.timeSeed == timeSeed && r.gameHash == StringHash.Hash(gameId)
    ensures r.combinedSeed == Game.CombinedSeed(timeSeed, gameId)
    ensures r.rtp == Game.GenerateGameRtp(timeSeed, gameId)
    ensures Game.RtpMin <= r.rtp <= Game.RtpMax
  {
    var gameHash := StringHash.Hash(gameId);
    var combined := timeSeed * 1000 + gameHash;
    var rtp := Sampler.GetSeededRandomInt(combined, Game.RtpMin, Game.RtpMax);
    Game.RtpOfHash(timeSeed, gameId, gameHash, combined);
    RtpReport(rtp, gameHash, timeSeed, combined)
  }

  /** `generate_rtp(game_id)`, with the clock reading given as `now`. */
  function GenerateRtp(now: TimeSeed.CivilTime, gameId: string): (r: RtpReport)
    ensures r.timeSeed == TimeSeed.TimeSeed(now)
    ensures r.rtp == Game.GenerateGameRtp(TimeSeed.TimeSeed(now), gameId)
  {
    ReportAt(TimeSeed.TimeSeed(now), gameId)
  }

  /** Two runs of the test in the same 3-minute window of a month report the
      same values. */
  lemma ReportStableWithinWindow(t: TimeSeed.CivilTime, u: TimeSeed.CivilTime, gameId: string)
    requires t.year == u.year && t.month == u.month
    requires t.MinuteOfMonth() / TimeSeed.Window == u.MinuteOfMonth() / TimeSeed.Window
    ensures GenerateRtp(t, gameId) == GenerateRtp(u, gameId)
  {
    TimeSeed.SameWindowSameSeed(t, u);
  }

  /** The hash of a string spelled "test" is 3556498. */
  lemma HashOfTestSpelling(s: string)
    requires |s| == 4 && s[0] == 't' && s[1] == 'e' && s[2] == 's' && s[3] == 't'
    ensures StringHash.Hash(s) == 3556498
  {
    assert StringHash.Acc(s, 1) == 116;
    assert StringHash.Acc(s, 2) == 3697;
    assert StringHash.Acc(s, 3) == 114722;
    assert StringHash.Acc(s, 4) == 3556498;
  }

  /** The hashes printed by the hash-verification step, for comparison with
      the browser's `stringToHash`. */
  lemma PrintedHashes()
    ensures StringHash.Hash("test") == 3556498
    ensures StringHash.Hash("PG SOFT/FORTUNE_1.webp") == 1426864627
  {
    HashOfTestSpelling("test");
    Oracle.Fortune1Hash();
  }
}
