/** The comparison of verify_fix.py: the RTP of five games at one recorded
    time seed, against the values the web page displayed at that seed.  Its
    own `string_to_hash`, `js_imul`, `seeded_random` and
    `get_seeded_random_int` compute what StringHash, Int32, Prng and Sampler
    model; the loop below calls those models. */
module VerifyFix {
  import StringHash
  import Sampler
  import Game
  import Oracle

  /** The values the web page showed at `Oracle.RecordedTimeSeed`. */
  const Expected: map<string, int> := map[
    Oracle.Fortune1 := 85,
    Oracle.Fortune2 := 88,
    Oracle.Fortune3 := 86,
    Oracle.Fortune4 := 36,
    Oracle.Fortune5 := 30
  ]

  /** The games compared, with their display names. */
  const Games: seq<(string, string)> := [
    (Oracle.Fortune1, "Fortune Rabbit"),
    (Oracle.Fortune2, "Fortune Snake"),
    (Oracle.Fortune3, "Fortune Tiger"),
    (Oracle.Fortune4, "Wild Heist Cashout"),
    (Oracle.Fortune5, "Fortune Dragon")
  ]

  /** Every compared game has a recorded value, so `expected[game_id]` never
      raises KeyError. */
  lemma GamesAreExpected()
    ensures forall i :: 0 <= i < |Games| ==> Games[i].0 in Expected
  {
  }

  /** The table, entry by entry. */
  lemma RecordedEntries()
    ensures Games[0].0 == Oracle.Fortune1 && Oracle.Fortune1 in Expected && Expected[Oracle.Fortune1] == 85
    ensures Games[1].0 == Oracle.Fortune2 && Oracle.Fortune2 in Expected && Expected[Oracle.Fortune2] == 88
    ensures Games[2].0 == Oracle.Fortune3 && Oracle.Fortune3 in Expected && Expected[Oracle.Fortune3] == 86
    ensures Games[3].0 == Oracle.Fortune4 && Oracle.Fortune4 in Expected && Expected[Oracle.Fortune4] == 36
    ensures Games[4].0 == Oracle.Fortune5 && Oracle.Fortune5 in Expected && Expected[Oracle.Fortune5] == 30
  {
  }

  /** Every game of `games` has a recorded value in `expected`, and its RTP
      at the time seed is that value. */
  predicate AllMatch(timeSeed: int, games: seq<(string, string)>, expected: map<string, int>)
  {
    forall i :: 0 <= i < |games| ==>
      games[i].0 in expected && Game.GenerateGameRtp(timeSeed, games[i].0) == expected[games[i].0]
  }

  /** The first three lines of the loop body: hash the identifier, combine
      it with the time seed, draw an integer in [30, 99]. */
  method RecomputeRtp(timeSeed: int, gameId: string) returns (rtp: int)
    ensures rtp == Game.GenerateGameRtp(timeSeed, gameId)
    ensures Game.RtpMin <= rtp <= Game.RtpMax
  {
    var gameHash := StringHash.StringToHash(gameId);
    var combined := timeSeed * 1000 + gameHash;
    rtp := Sampler.GetSeededRandomInt(combined, Game.RtpMin, Game.RtpMax);
    Game.RtpOfHash(timeSeed, gameId, gameHash, combined);
  }

  /** The loop of the script at its recorded time seed: no comparison fails,
      so `all_match` stays true. */
  method CheckRecordedValues() returns (allMatch: bool)
    ensures allMatch
  {
    var timeSeed := Oracle.RecordedTimeSeed;
    RecordedValuesReproduced();
    allMatch := true;
    var i := 0;
    while i < |Games|
      invariant 0 <= i <= |Games|
      invariant allMatch
    {
      var gameId := Games[i].0;
      var rtp := RecomputeRtp(timeSeed, gameId);
      var exp := Expected[gameId];
      if rtp != exp {
        allMatch := false;
      }
      i := i + 1;
    }
  }

  /** At the recorded time seed the float transform reproduces every value
      the web page showed. */
  lemma RecordedValuesReproduced()
    ensures AllMatch(Oracle.RecordedTimeSeed, Games, Expected)
  {
    forall i | 0 <= i < |Games|
      ensures Games[i].0 in Expected
      ensures Game.GenerateGameRtp(Oracle.RecordedTimeSeed, Games[i].0) == Expected[Games[i].0]
    {
      if i == 0 {
        Recorded1();
      } else if i == 1 {
        Recorded2();
      } else if i == 2 {
        Recorded3();
      } else if i == 3 {
        Recorded4();
      } else {
        Recorded5();
      }
    }
  }

  lemma Recorded1()
    ensures Games[0].0 in Expected
    ensures Game.GenerateGameRtp(Oracle.RecordedTimeSeed, Games[0].0) == Expected[Games[0].0]
  {
    RecordedEntries();
    Oracle.Fortune1Rtp();
  }

  lemma Recorded2()
    ensures Games[1].0 in Expected
    ensures Game.GenerateGameRtp(Oracle.RecordedTimeSeed, Games[1].0) == Expected[Games[1].0]
  {
    RecordedEntries();
    Oracle.Fortune2Rtp();
  }

  lemma Recorded3()
    ensures Games[2].0 in Expected
    ensures Game.GenerateGameRtp(Oracle.RecordedTimeSeed, Games[2].0) == Expected[Games[2].0]
  {
    RecordedEntries();
    Oracle.Fortune3Rtp();
  }

  lemma Recorded4()
    ensures Games[3].0 in Expected
    ensures Game.GenerateGameRtp(Oracle.RecordedTimeSeed, Games[3].0) == Expected[Games[3].0]
  {
    RecordedEntries();
    Oracle.Fortune4Rtp();
  }

  lemma Recorded5()
    ensures Games[4].0 in Expected
    ensures Game.GenerateGameRtp(Oracle.RecordedTimeSeed, Games[4].0) == Expected[Games[4].0]
  {
    RecordedEntries();
    Oracle.Fortune5Rtp();
  }
}
