/** `get_high_rtp_games`: the announcement list.

    The catalog is walked in order; a game is kept when its provider matches
    the filter, its image file exists and its RTP reaches the threshold.  The
    kept games, with their strategy and multiplier, are sorted by RTP from
    highest to lowest (Python's `list.sort` is stable, also with
    `reverse=True`) and the first five are returned.  Whether an image file
    exists is a question about the file system and is passed in as a
    predicate on the file name. */
module Selection {
  import Game

  const MaxGamesPerNotification: int := 5
  /** The filter value that selects every provider. */
  const AllProviders: string := "ALL"

  /** A catalog entry. */
  datatype GameInfo = GameInfo(gameId: string, displayName: string, provider: string, imageFile: string)

  /** A catalog entry together with the values generated for it. */
  datatype Pick = Pick(game: GameInfo, rtp: int, strategy: Game.Strategy, multiplier: Game.Multiplier)

  function UpperChar(c: char): char
  {
    if 'a' <= c <= 'z' then (c as int - 32) as char else c
  }

  /** `str.upper` on ASCII letters; other characters are left as they are. */
  function Upper(s: string): (u: string)
    ensures |u| == |s|
    ensures forall i :: 0 <= i < |s| ==> u[i] == UpperChar(s[i])
  {
    seq(|s|, i requires 0 <= i < |s| => UpperChar(s[i]))
  }

  /** The provider test: "ALL" (exactly, in capitals) lets every game through;
      any other filter is compared with the provider ignoring case. */
  predicate ProviderMatches(filter: string, provider: string)
    ensures ProviderMatches(filter, provider) <==>
              filter == AllProviders
              || (|provider| == |filter| && forall i :: 0 <= i < |filter| ==> UpperChar(provider[i]) == UpperChar(filter[i]))
  {
    filter == AllProviders || Upper(provider) == Upper(filter)
  }

  /** Upper-casing twice changes nothing more. */
  lemma UpperIdempotent(s: string)
    ensures Upper(Upper(s)) == Upper(s)
  {
    assert forall i :: 0 <= i < |s| ==> UpperChar(UpperChar(s[i])) == UpperChar(s[i]);
  }

  /** The provider test ignores the case of the provider name and of the
      filter (apart from the literal "ALL"). */
  lemma MatchIgnoresCase(filter: string, provider: string)
    ensures ProviderMatches(filter, provider) <==> ProviderMatches(filter, Upper(provider))
    ensures filter != AllProviders && Upper(filter) != AllProviders ==>
              (ProviderMatches(filter, provider) <==> ProviderMatches(Upper(filter), provider))
  {
    UpperIdempotent(provider);
    UpperIdempotent(filter);
  }

  /** The values generated for one catalog entry. */
  function Evaluate(game: GameInfo, timeSeed: int): (p: Pick)
    ensures p.game == game
    ensures Game.RtpMin <= p.rtp <= Game.RtpMax
  {
    Pick(game, Game.GenerateGameRtp(timeSeed, game.gameId),
         Game.GenerateGameStrategy(timeSeed, game.gameId),
         Game.GenerateMultiplier(timeSeed, game.gameId))
  }

  /** The three tests a catalog entry must pass to be kept. */
  predicate Qualifies(game: GameInfo, filter: string, imageExists: string -> bool, timeSeed: int)
  {
    ProviderMatches(filter, game.provider) && imageExists(game.imageFile)
    && Evaluate(game, timeSeed).rtp >= Game.RtpThreshold
  }

  /** The entries of xs that pass keep, each mapped by f, in the order of xs. */
  function KeepMap<A, B>(xs: seq<A>, keep: A -> bool, f: A -> B): (ys: seq<B>)
    ensures |ys| <= |xs|
    decreases |xs|
  {
    if |xs| == 0 then []
    else KeepMap(xs[..|xs| - 1], keep, f) + (if keep(xs[|xs| - 1]) then [f(xs[|xs| - 1])] else [])
  }

  /** y is kept exactly when it is the image of a kept entry. */
  lemma {:induction false} KeepMapExactly<A, B>(xs: seq<A>, keep: A -> bool, f: A -> B, y: B)
    ensures y in KeepMap(xs, keep, f) <==> exists x :: x in xs && keep(x) && y == f(x)
    decreases |xs|
  {
    if |xs| > 0 {
      var init, last := xs[..|xs| - 1], xs[|xs| - 1];
      KeepMapExactly(init, keep, f, y);
      var here := if keep(last) then [f(last)] else [];
      assert KeepMap(xs, keep, f) == KeepMap(init, keep, f) + here;
      assert xs == init + [last];
      if y in here {
        assert last in xs && keep(last) && y == f(last);
      }
      if exists x :: x in xs && keep(x) && y == f(x) {
        var x :| x in xs && keep(x) && y == f(x);
        if x != last {
          assert x in init;
        }
      }
    }
  }

  /** One more entry appends its image exactly when it is kept. */
  lemma KeepMapStep<A, B>(xs: seq<A>, i: nat, keep: A -> bool, f: A -> B)
    requires i < |xs|
    ensures KeepMap(xs[..i + 1], keep, f) == KeepMap(xs[..i], keep, f) + (if keep(xs[i]) then [f(xs[i])] else [])
  {
    assert xs[..i + 1][..i] == xs[..i];
  }

  /** The three tests as a predicate on catalog entries. */
  function QualifyTest(filter: string, imageExists: string -> bool, timeSeed: int): GameInfo -> bool
  {
    game => Qualifies(game, filter, imageExists, timeSeed)
  }

  /** The evaluation as a function on catalog entries. */
  function EvaluateAt(timeSeed: int): GameInfo -> Pick
  {
    game => Evaluate(game, timeSeed)
  }

  /** The list built by the loop, in catalog order, before sorting. */
  function Candidates(games: seq<GameInfo>, filter: string, imageExists: string -> bool, timeSeed: int): (c: seq<Pick>)
    ensures |c| <= |games|
  {
    KeepMap(games, QualifyTest(filter, imageExists, timeSeed), EvaluateAt(timeSeed))
  }

  /** A pick is a candidate exactly when it is the evaluation of a catalog
      entry that passes all three tests. */
  lemma CandidatesExactly(games: seq<GameInfo>, filter: string, imageExists: string -> bool, timeSeed: int, p: Pick)
    ensures p in Candidates(games, filter, imageExists, timeSeed)
            <==> p.game in games && Qualifies(p.game, filter, imageExists, timeSeed) && p == Evaluate(p.game, timeSeed)
  {
    var keep, f := QualifyTest(filter, imageExists, timeSeed), EvaluateAt(timeSeed);
    KeepMapExactly(games, keep, f, p);
    if exists g :: g in games && keep(g) && p == f(g) {
      var g :| g in games && keep(g) && p == f(g);
      assert p.game == g;
    }
  }

  /** Every candidate passed the three tests of the loop. */
  lemma CandidateQualifies(games: seq<GameInfo>, filter: string, imageExists: string -> bool, timeSeed: int, p: Pick)
    requires p in Candidates(games, filter, imageExists, timeSeed)
    ensures p.game in games && p.rtp >= Game.RtpThreshold
    ensures ProviderMatches(filter, p.game.provider) && imageExists(p.game.imageFile)
  {
    CandidatesExactly(games, filter, imageExists, timeSeed, p);
  }

  /** Highest RTP first. */
  predicate SortedByRtp(s: seq<Pick>)
  {
    forall i, j :: 0 <= i < j < |s| ==> s[i].rtp >= s[j].rtp
  }

  /** Put x in front of the first element whose RTP does not exceed its own:
      x then comes before the elements it ties with. */
  function Insert(x: Pick, s: seq<Pick>): (r: seq<Pick>)
    ensures multiset(r) == multiset(s) + multiset{x}
  {
    if s == [] || s[0].rtp <= x.rtp then [x] + s
    else
      assert s == [s[0]] + s[1..];
      [s[0]] + Insert(x, s[1..])
  }

  /** Inserting into a list sorted highest first keeps it sorted. */
  lemma {:induction false} InsertKeepsSorted(x: Pick, s: seq<Pick>)
    requires SortedByRtp(s)
    ensures SortedByRtp(Insert(x, s))
    decreases |s|
  {
    if s != [] && s[0].rtp > x.rtp {
      InsertKeepsSorted(x, s[1..]);
      InsertBounded(x, s[1..], s[0].rtp);
      SortedCons(s[0], Insert(x, s[1..]));
    }
  }

  /** An RTP bound on x and on every element of t bounds the whole of
      Insert(x, t). */
  lemma {:induction false} InsertBounded(x: Pick, t: seq<Pick>, b: int)
    requires x.rtp <= b && forall i :: 0 <= i < |t| ==> t[i].rtp <= b
    ensures forall i :: 0 <= i < |Insert(x, t)| ==> Insert(x, t)[i].rtp <= b
    decreases |t|
  {
    if t != [] && t[0].rtp > x.rtp {
      InsertBounded(x, t[1..], b);
    }
  }

  /** A sorted list stays sorted under a head whose RTP bounds it. */
  lemma SortedCons(h: Pick, t: seq<Pick>)
    requires SortedByRtp(t) && forall i :: 0 <= i < |t| ==> t[i].rtp <= h.rtp
    ensures SortedByRtp([h] + t)
  {
    var r := [h] + t;
    forall i, j | 0 <= i < j < |r|
      ensures r[i].rtp >= r[j].rtp
    {
      assert r[j] == t[j - 1];
      if i > 0 {
        assert r[i] == t[i - 1];
      }
    }
  }

  /** `high_rtp_games.sort(key=lambda x: x["rtp"], reverse=True)`: a stable
      sort, highest RTP first. */
  function SortByRtp(s: seq<Pick>): (r: seq<Pick>)
    ensures SortedByRtp(r)
    ensures multiset(r) == multiset(s)
  {
    if s == [] then []
    else
      assert s == [s[0]] + s[1..];
      InsertKeepsSorted(s[0], SortByRtp(s[1..]));
      Insert(s[0], SortByRtp(s[1..]))
  }

  /** The picks of s with the given RTP, in their order in s. */
  function WithRtp(s: seq<Pick>, v: int): seq<Pick>
  {
    if s == [] then []
    else (if s[0].rtp == v then [s[0]] else []) + WithRtp(s[1..], v)
  }

  lemma {:induction false} WithRtpInsert(x: Pick, s: seq<Pick>, v: int)
    ensures WithRtp(Insert(x, s), v) == (if x.rtp == v then [x] else []) + WithRtp(s, v)
    decreases |s|
  {
    if s == [] || s[0].rtp <= x.rtp {
      assert Insert(x, s) == [x] + s;
      WithRtpCons(x, s, v);
    } else {
      WithRtpInsert(x, s[1..], v);
      InsertBehindHead(x, s, v);
      SwapEmpty(if s[0].rtp == v then [s[0]] else [], if x.rtp == v then [x] else [], WithRtp(s[1..], v));
    }
  }

  /** When x goes behind the head, WithRtp sees the head first on both sides. */
  lemma InsertBehindHead(x: Pick, s: seq<Pick>, v: int)
    requires s != [] && s[0].rtp > x.rtp
    ensures WithRtp(Insert(x, s), v) == (if s[0].rtp == v then [s[0]] else []) + WithRtp(Insert(x, s[1..]), v)
    ensures WithRtp(s, v) == (if s[0].rtp == v then [s[0]] else []) + WithRtp(s[1..], v)
  {
    assert Insert(x, s) == [s[0]] + Insert(x, s[1..]);
    WithRtpCons(s[0], Insert(x, s[1..]), v);
  }

  /** Two lists of which one is empty can be swapped in front of a third. */
  lemma SwapEmpty<T>(a: seq<T>, b: seq<T>, c: seq<T>)
    requires a == [] || b == []
    ensures a + (b + c) == b + (a + c)
  {
    if a == [] {
      assert a + (b + c) == b + c;
    } else {
      assert b + (a + c) == a + c;
    }
  }

  /** One step of WithRtp on a list with a known head. */
  lemma WithRtpCons(p: Pick, t: seq<Pick>, v: int)
    ensures WithRtp([p] + t, v) == (if p.rtp == v then [p] else []) + WithRtp(t, v)
  {
    assert ([p] + t)[0] == p && ([p] + t)[1..] == t;
  }

  /** The sort is stable: for every RTP value, the picks with that value keep
      their relative order. */
  lemma {:induction false} SortIsStable(s: seq<Pick>, v: int)
    ensures WithRtp(SortByRtp(s), v) == WithRtp(s, v)
    decreases |s|
  {
    if s != [] {
      SortIsStable(s[1..], v);
      WithRtpInsert(s[0], SortByRtp(s[1..]), v);
    }
  }

  /** `[:MAX_GAMES_PER_NOTIFICATION]`. */
  function Top(s: seq<Pick>): (t: seq<Pick>)
    ensures |t| <= MaxGamesPerNotification
    ensures |t| <= |s|
    ensures |t| == |s| || |t| == MaxGamesPerNotification
    ensures t == s[..|t|]
  {
    if |s| <= MaxGamesPerNotification then s else s[..MaxGamesPerNotification]
  }

  /** What `get_high_rtp_games` returns. */
  function HighRtpGames(games: seq<GameInfo>, filter: string, imageExists: string -> bool, timeSeed: int): (top: seq<Pick>)
    ensures |top| <= MaxGamesPerNotification && |top| <= |games|
    ensures SortedByRtp(top)
    ensures multiset(top) <= multiset(Candidates(games, filter, imageExists, timeSeed))
  {
    var sorted := SortByRtp(Candidates(games, filter, imageExists, timeSeed));
    TopOfSorted(sorted);
    assert |multiset(sorted)| == |sorted|;
    Top(sorted)
  }

  /** The first five of a list sorted highest first are sorted, come from
      the list, and nothing left behind has a higher RTP than one of them. */
  lemma TopOfSorted(s: seq<Pick>)
    requires SortedByRtp(s)
    ensures |Top(s)| == (if |s| < MaxGamesPerNotification then |s| else MaxGamesPerNotification)
    ensures SortedByRtp(Top(s))
    ensures multiset(Top(s)) <= multiset(s)
    ensures forall p, q :: p in Top(s) && q in multiset(s) - multiset(Top(s)) ==> q.rtp <= p.rtp
  {
    var top := Top(s);
    var k := |top|;
    assert s == top + s[k..];
    assert multiset(s) == multiset(top) + multiset(s[k..]);
    forall i, j | 0 <= i < j < k
      ensures top[i].rtp >= top[j].rtp
    {
      assert top[i] == s[i] && top[j] == s[j];
    }
    forall p, q | p in top && q in multiset(s) - multiset(top)
      ensures q.rtp <= p.rtp
    {
      assert q in s[k..];
      var i :| 0 <= i < k && top[i] == p;
      var j :| 0 <= j < |s| - k && s[k..][j] == q;
      assert s[i] == p && s[k + j] == q;
    }
  }

  /** What `get_high_rtp_games` promises: at most five entries, each with an
      RTP of at least 80, a matching provider and an existing image, highest
      RTP first, drawn from the candidates, and no candidate left out has a
      higher RTP than one that was kept. */
  lemma HighRtpGamesSound(games: seq<GameInfo>, filter: string, imageExists: string -> bool, timeSeed: int)
    ensures var top := HighRtpGames(games, filter, imageExists, timeSeed);
            var candidates := Candidates(games, filter, imageExists, timeSeed);
            && |top| == (if |candidates| < MaxGamesPerNotification then |candidates| else MaxGamesPerNotification)
            && (forall p :: p in top ==> p.rtp >= Game.RtpThreshold && ProviderMatches(filter, p.game.provider)
                                         && imageExists(p.game.imageFile) && p.game in games)
            && SortedByRtp(top)
            && multiset(top) <= multiset(candidates)
            && (forall p, q :: p in top && q in multiset(candidates) - multiset(top) ==> q.rtp <= p.rtp)
  {
    var candidates := Candidates(games, filter, imageExists, timeSeed);
    var sorted := SortByRtp(candidates);
    assert |sorted| == |candidates| by {
      assert |multiset(sorted)| == |multiset(candidates)|;
    }
    TopOfSorted(sorted);
    var top := Top(sorted);
    forall p | p in top
      ensures p.rtp >= Game.RtpThreshold && ProviderMatches(filter, p.game.provider)
              && imageExists(p.game.imageFile) && p.game in games
    {
      assert p in multiset(top);
      assert p in multiset(candidates);
      CandidateQualifies(games, filter, imageExists, timeSeed, p);
    }
  }

  /** kiki2test.py's `get_high_rtp_games`: the loop appends qualifying games
      to a list, which is then sorted and cut to five entries. */
  method GetHighRtpGames(games: seq<GameInfo>, providerFilter: string, imageExists: string -> bool, timeSeed: int)
    returns (top: seq<Pick>)
    ensures top == HighRtpGames(games, providerFilter, imageExists, timeSeed)
    ensures |top| <= MaxGamesPerNotification
    ensures forall p :: p in top ==> p.rtp >= Game.RtpThreshold && ProviderMatches(providerFilter, p.game.provider)
                                     && imageExists(p.game.imageFile) && p.game in games
    ensures SortedByRtp(top)
  {
    var highRtpGames: seq<Pick> := [];
    var i := 0;
    while i < |games|
      invariant 0 <= i <= |games|
      invariant highRtpGames == Candidates(games[..i], providerFilter, imageExists, timeSeed)
    {
      var game := games[i];
      KeepMapStep(games, i, QualifyTest(providerFilter, imageExists, timeSeed), EvaluateAt(timeSeed));
      i := i + 1;
      if providerFilter != AllProviders {
        if Upper(game.provider) != Upper(providerFilter) {
          continue;
        }
      }
      if !imageExists(game.imageFile) {
        continue;
      }
      var rtp := Game.GenerateGameRtp(timeSeed, game.gameId);
      if rtp >= Game.RtpThreshold {
        var strategy := Game.GenerateGameStrategy(timeSeed, game.gameId);
        var multiplier := Game.GenerateMultiplier(timeSeed, game.gameId);
        highRtpGames := highRtpGames + [Pick(game, rtp, strategy, multiplier)];
      }
    }
    assert games[..i] == games;
    highRtpGames := SortByRtp(highRtpGames);
    top := Top(highRtpGames);
    HighRtpGamesSound(games, providerFilter, imageExists, timeSeed);
  }
}
