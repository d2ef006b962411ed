# Seeded game values of the RTP notification bot

The bot announces slot games with a high "RTP" percentage. It must show
the same numbers as a JavaScript web page. So it re-implements the page's
deterministic generator:

- a time bucket that changes every 3 minutes (`get_time_seed`);
- a 32-bit rolling hash of the game identifier (`string_to_hash`);
- a seed transform done in double precision;
- a Mulberry32-style bit mixer (`seeded_random`), built from emulated
  32-bit conversions and `Math.imul`;
- a bounded integer draw and a list choice.

From one combined seed, `time_seed * 1000 + hash`, the bot derives each
game's RTP, betting strategy and multiplier. `get_high_rtp_games` then
keeps the qualifying games, sorts them by RTP and cuts the list to five.
Three helper scripts are also modelled: `test_rtp_sync.py`,
`verify_fix.py` and `debug_rtp.py`. Each carries its own copy of the
generator.

Modules:

- `Int32`: the `ctypes` conversions, `Math.imul`, `^` and `|` on 32-bit
  words.
- `StringHash`: the identifier hash. It is a loop, proved against a fold.
- `TimeSeed`: the time-bucket formula on calendar fields.
- `Binary64`: rounding integers to the nearest double, ties to even.
- `Prng`: the bit mixer. It is straight-line reassignment, proved against
  a function of the seed.
- `Sampler`: the float seed transform, the bounded draw and the choice.
- `Game`: RTP, strategy and multiplier for one game.
- `Selection`: the filter, sort and cut loop of `get_high_rtp_games`.
- `RtpSync`: `generate_rtp` and the printed hashes of `test_rtp_sync.py`.
- `VerifyFix`: the comparison loop of `verify_fix.py` at its recorded
  time seed.
- `DebugRtp`: the trace in `debug_rtp.py`, which uses an exact integer
  seed transform.
- `Oracle`: concrete evaluations (hashes, transforms, generator outputs)
  at the recorded time seed 1064842017.

The identical copies of the helpers in the three scripts are modelled once.
Their differences are the seed transform of `debug_rtp.py` and the
reporting of `generate_rtp`; those have their own members.

## Model

| member | source | states |
|---|---|---|
| Int32.Abs | kiki2test.py:357 | Python `abs` on an integer: the value or its negation, never negative, never wrapping |
| Int32.ToInt32 | kiki2test.py:297-308 | `c_int32(v).value` lies in [-2^31, 2^31) |
| Int32.ToUint32 | kiki2test.py:311-322 | `c_uint32(v).value` lies in [0, 2^32) |
| Int32.ConversionsKeepWord | kiki2test.py:297-322 | both conversions keep the 32-bit word of their input |
| Int32.ToInt32Unique | kiki2test.py:297-308 | the signed conversion is the only value in the int32 range with the input's word |
| Int32.ToUint32Unique | kiki2test.py:311-322 | the unsigned conversion is the only value in [0, 2^32) with the input's word |
| Int32.ConversionsPeriodic | kiki2test.py:297-322 | inputs that differ by a multiple of 2^32 convert to the same value |
| Int32.AbsToInt32Neg | kiki2test.py:435 | `abs(to_int32(-v)) == abs(to_int32(v))`, also at -2^31, which wraps to itself |
| Int32.JsImul | kiki2test.py:391-411 | `js_imul` returns a signed 32-bit value |
| Int32.JsImulIsWrappedProduct | kiki2test.py:391-411 | `js_imul(a, b)` is the exact product `a * b` wrapped to signed 32 bits, for any operands |
| Int32.JsImulCommutes | kiki2test.py:391-411 | `js_imul` is commutative |
| Int32.JsImulWords | kiki2test.py:406-407 | `js_imul` only looks at the words of its operands |
| Int32.BitwiseRange | kiki2test.py:444-453 | `^` and `\|` of two unsigned 32-bit values stay in [0, 2^32) |
| StringHash.Step | kiki2test.py:353-356 | one pass of the loop body, `to_int32(to_int32(h << 5) - h + c)`, equals `31 * h + c` wrapped to int32 |
| StringHash.Acc | kiki2test.py:352-356 | after any number of characters the accumulator is a signed 32-bit value |
| StringHash.Hash | kiki2test.py:325-358 | the hash lies in [0, 2^31]; it is 2^31 exactly when the accumulator ends at -2^31; it is the accumulator or its negation |
| StringHash.StringToHash | kiki2test.py:352-358 | the loop returns `Hash(s)`; the loop invariant is that the accumulator after i characters is `Acc(s, i)` |
| StringHash.AccIsWrappedPolynomial | kiki2test.py:352-356 | wrapping after every step gives the same result as evaluating the base-31 polynomial of the code points and wrapping once |
| StringHash.AccOfPrefix | kiki2test.py:352-356 | the accumulator after k characters depends only on the first k characters |
| StringHash.HashOfEmpty | kiki2test.py:352-358 | the empty identifier hashes to 0 |
| TimeSeed.TimeSeed | kiki2test.py:361-388 | the bucket is always a multiple of 3, the start of a 3-minute window: the bucket plus 1 or plus 2 never comes from the clock |
| TimeSeed.WithinMonth | kiki2test.py:361-388 | within a month the bucket is a base for the month plus the start of the current 3-minute window, in real minutes since the month began |
| TimeSeed.SameWindowSameSeed | kiki2test.py:361-388 | two instants of one month in the same 3-minute window give the same bucket |
| TimeSeed.NextWindowAddsThree | kiki2test.py:361-388 | the next window of the same month adds exactly 3, across hour and day boundaries too |
| TimeSeed.MonotoneWithinMonth | kiki2test.py:361-388 | within a month the bucket never decreases as time goes on |
| TimeSeed.DropsAtMonthEnd | kiki2test.py:379-385 | from 23:57 on January 31 to 00:00 on February 1 the bucket drops by 837 |
| Binary64.Spacing | kiki2test.py:475 | the gap between neighbouring doubles: 1 below 2^53, and inside each binade [2^52 u, 2^53 u) it is u |
| Binary64.SpacingIsPowerOfTwo | kiki2test.py:475 | the gap is a power of two; with the binade bound of `Spacing` this fixes it uniquely |
| Binary64.RoundMagnitude | kiki2test.py:475 | rounding a magnitude gives a multiple of the spacing within half a spacing of the input; on an exact tie the multiple is even (ties to even) |
| Binary64.RoundToDouble | kiki2test.py:475 | `float(x)`, and every integer-valued float operation: exact below 2^53, keeps the sign, within half a spacing, and on an exact tie the even multiple of the spacing |
| Binary64.RoundIsDouble | kiki2test.py:475 | the rounded value is a double: its magnitude is a multiple of the spacing at x, so rounding is not the identity above 2^53 |
| Binary64.RoundOnGrid | kiki2test.py:475 | a value that already lies on the double grid is unchanged |
| Binary64.ExactUpTo2To53 | kiki2test.py:475 | every integer of magnitude up to 2^53 is a double |
| Binary64.RelativeError | kiki2test.py:475 | rounding changes a value by at most 2^-53 of it |
| Prng.Start | kiki2test.py:435-439 | `to_uint32(abs(to_int32(seed)) + 0x6D2B79F5)` lies in [0, 2^32) |
| Prng.MixMultiply | kiki2test.py:443-444 | the first mixing statement stays in [0, 2^32) |
| Prng.AddImul | kiki2test.py:447-448 | the `js_imul` of the second statement is a signed 32-bit value |
| Prng.MixAdd | kiki2test.py:446-449 | the second mixing statement stays in [0, 2^32) |
| Prng.Finish | kiki2test.py:453 | the final shift-xor stays in [0, 2^32) |
| Prng.Mulberry32 | kiki2test.py:414-455 | the numerator of `seeded_random`: an integer in [0, 2^32), so the returned float is in [0, 1) |
| Prng.SeededRandom | kiki2test.py:414-455 | the reassignments of `t`, with the temporaries `t_shifted`, `t_shifted2` and `imul_result`, compute `Mulberry32(seed)` |
| Prng.Mulberry32Periodic | kiki2test.py:435 | seeds 2^32 apart give the same value |
| Prng.Mulberry32Symmetric | kiki2test.py:435 | a seed and its negation give the same value |
| Sampler.SeedTransform | kiki2test.py:475 | `int((float(seed) * 9301 + 49297) % 233280)` rounded step by step lies in [0, 233280) |
| Sampler.ScaleToRange | kiki2test.py:477 | `math.floor(rnd * n)` with the product rounded once is never negative for a draw and a size that are not, and is 0 for a zero draw or a zero size |
| Sampler.ScaleBounds | kiki2test.py:476-477 | for every draw and every size n >= 1, `floor(rnd * n)` is in [0, n), despite the rounding of the product |
| Sampler.RoundingStaysBelow | kiki2test.py:477 | if the size and the product grow by at most a factor (1 + 1/a) when rounded, the rounded product stays below k * n |
| Sampler.ScaleExact | kiki2test.py:477 | for sizes up to 2^21 no rounding happens: `floor(rnd * n) == bits * n div 2^32` |
| Sampler.GetSeededRandomInt | kiki2test.py:458-477 | the result lies in [min_val, max_val] whenever that range is not empty |
| Sampler.ChoiceIndex | kiki2test.py:492-494 | for a non-empty list the drawn index is valid |
| Sampler.GetSeededChoice | kiki2test.py:480-495 | there is a result exactly when the list is not empty, and it is the element at the drawn index; an empty list raises IndexError |
| Sampler.ChoiceIsBoundedInt | kiki2test.py:458-495 | choosing among n options draws the same index as `get_seeded_random_int(seed, 0, n - 1)` |
| Sampler.ChoiceByPosition | kiki2test.py:494-495 | two lists of the same length yield their elements at the same position |
| Sampler.SwappedPairSwapsChoice | kiki2test.py:494-495 | swapping a two-element list swaps the result; with distinct elements the two results differ |
| Sampler.ChoiceOfPair | kiki2test.py:494-495 | a two-element list yields its first element exactly when the drawn index is 0 |
| Game.CombinedSeed | kiki2test.py:513-515 | `time_seed * 1000 + hash` lies between the scaled bucket and that plus 2^31, offset by the hash |
| Game.GenerateGameRtp | kiki2test.py:502-517 | the RTP lies in [30, 99] |
| Game.StrategyAt | kiki2test.py:533-551 | normal spins lie in [2, 15], the auto spins are one of 10/30/50/80, and the turbo label is one of the two options |
| Game.GenerateGameStrategy | kiki2test.py:520-551 | the same ranges for the strategy of a game |
| Game.MultiplierIndex | kiki2test.py:565-571 | the index drawn at the combined seed times 7 is a valid table index |
| Game.GenerateMultiplier | kiki2test.py:554-573 | the multiplier is the table entry at the drawn index |
| Game.SameHashSameValues | kiki2test.py:502-573 | identifiers with colliding hashes get identical RTP, strategy and multiplier |
| Game.RtpIsIntegerScale | kiki2test.py:502-517 | the RTP is `bits * 70 div 2^32 + 30`, where bits is the draw at the transformed combined seed |
| Game.TurboFollowsLaterRtp | kiki2test.py:502-551 | the turbo draw at the combined seed plus 3000 is the RTP draw of the time seed plus 3: the turbo label is the first one exactly when that RTP is below 65 |
| Game.TurboForetellsNextWindow | kiki2test.py:361-551 | within a month, the turbo label shown now is the first one ("Ativo") exactly when the RTP shown in the next 3-minute window is below 65 |
| Game.StableWithinWindow | kiki2test.py:361-573 | two instants of one month in the same 3-minute window show the same RTP, strategy and multiplier |
| Selection.Upper | kiki2test.py:600 | `str.upper` keeps the length and upper-cases each ASCII letter |
| Selection.UpperIdempotent | kiki2test.py:600 | upper-casing twice changes nothing more |
| Selection.ProviderMatches | kiki2test.py:599-601 | a game passes the provider test exactly when the filter is "ALL", or the provider and the filter have the same length and agree character by character after upper-casing |
| Selection.MatchIgnoresCase | kiki2test.py:599-601 | the provider test ignores the case of the provider name; it ignores the case of the filter too, unless the filter upper-cases to "ALL": the wildcard test `provider_filter != "ALL"` is case-sensitive, so "ALL" lets every game through while "all" only matches providers named "all" in some case |
| Selection.Evaluate | kiki2test.py:608-619 | the appended entry keeps the catalog fields and has an RTP in [30, 99] |
| Selection.KeepMap | kiki2test.py:595-619 | the list built by appending, in order, is no longer than the input |
| Selection.KeepMapExactly | kiki2test.py:595-619 | an element is in the built list exactly when it is the image of a kept input |
| Selection.Candidates | kiki2test.py:595-619 | there are no more candidates than catalog entries |
| Selection.CandidatesExactly | kiki2test.py:597-619 | a pick is a candidate exactly when it is the evaluation of a catalog entry that passes the provider, image and threshold tests |
| Selection.CandidateQualifies | kiki2test.py:597-619 | every candidate has an RTP of at least 80, a matching provider and an existing image |
| Selection.Insert | kiki2test.py:622 | insertion adds exactly one element to the multiset |
| Selection.InsertKeepsSorted | kiki2test.py:622 | inserting into a list sorted highest RTP first keeps it sorted |
| Selection.InsertBounded | kiki2test.py:622 | an RTP bound on the element and on the list bounds the result of insertion |
| Selection.SortedCons | kiki2test.py:622 | a sorted list stays sorted under a head whose RTP bounds it |
| Selection.SortByRtp | kiki2test.py:622 | the sort returns a permutation of its input, sorted highest RTP first |
| Selection.WithRtpInsert | kiki2test.py:622 | insertion keeps, for every RTP value, the order of the entries with that value; the inserted entry goes before those it ties with |
| Selection.SortIsStable | kiki2test.py:622 | the sort is stable: entries with equal RTP keep their catalog order |
| Selection.Top | kiki2test.py:625 | `[:5]` is a prefix of at most five entries, and is the whole list when the list is shorter |
| Selection.TopOfSorted | kiki2test.py:622-625 | the first five of a sorted list are sorted, come from the list, and none left out has a higher RTP than one kept |
| Selection.HighRtpGames | kiki2test.py:580-625 | the returned list has at most five entries and no more than the catalog, is sorted highest RTP first, and is a sub-multiset of the qualifying games |
| Selection.HighRtpGamesSound | kiki2test.py:580-625 | the result has min(5, number of candidates) entries, each qualified; it is sorted, drawn from the candidates, and no candidate left out beats one kept |
| Selection.GetHighRtpGames | kiki2test.py:580-625 | the loop, sort and cut return `HighRtpGames`: at most 5 qualified entries, highest RTP first; the loop invariant is that the list equals the candidates of the entries seen so far |
| RtpSync.ReportAt | test_rtp_sync.py:71-76 | the report carries the time seed, the identifier's hash, the combined seed, and the bot's RTP for that seed, in [30, 99] |
| RtpSync.GenerateRtp | test_rtp_sync.py:71-76 | `generate_rtp` reports the current bucket and the bot's `generate_game_rtp` at that bucket |
| RtpSync.ReportStableWithinWindow | test_rtp_sync.py:71-76 | two runs in the same 3-minute window of a month report the same values |
| RtpSync.HashOfTestSpelling | test_rtp_sync.py:90-93 | any four-character string spelling "test" hashes to 3556498 |
| RtpSync.PrintedHashes | test_rtp_sync.py:90-93 | the hash-verification step prints 3556498 for "test" and 1426864627 for "PG SOFT/FORTUNE_1.webp" |
| Oracle.Fortune1Hash | verify_fix.py:61 | the hash of "PG SOFT/FORTUNE_1.webp" is 1426864627 |
| Oracle.Fortune2Hash | verify_fix.py:61 | the hash of "PG SOFT/FORTUNE_2.webp" is 1455493778 |
| Oracle.Fortune3Hash | verify_fix.py:61 | the hash of "PG SOFT/FORTUNE_3.webp" is 1484122929 |
| Oracle.Fortune4Hash | verify_fix.py:61 | the hash of "PG SOFT/FORTUNE_4.webp" is 1512752080 |
| Oracle.Fortune5Hash | verify_fix.py:61 | the hash of "PG SOFT/FORTUNE_5.webp" is 1541381231 |
| Oracle.Fortune1Rtp | verify_fix.py:43-49 | at time seed 1064842017, FORTUNE_1 gets RTP 85 |
| Oracle.Fortune2Rtp | verify_fix.py:43-49 | at time seed 1064842017, FORTUNE_2 gets RTP 88 |
| Oracle.Fortune3Rtp | verify_fix.py:43-49 | at time seed 1064842017, FORTUNE_3 gets RTP 86 |
| Oracle.Fortune4Rtp | verify_fix.py:43-49 | at time seed 1064842017, FORTUNE_4 gets RTP 36 |
| Oracle.Fortune5Rtp | verify_fix.py:43-49 | at time seed 1064842017, FORTUNE_5 gets RTP 30 |
| VerifyFix.GamesAreExpected | verify_fix.py:43-64 | every compared game has a recorded value, so `expected[game_id]` never raises KeyError |
| VerifyFix.RecomputeRtp | verify_fix.py:61-63 | the three lines of the loop body compute the bot's `generate_game_rtp` at the given time seed |
| VerifyFix.CheckRecordedValues | verify_fix.py:59-68 | at the recorded time seed no comparison fails, so `all_match` ends true |
| VerifyFix.RecordedValuesReproduced | verify_fix.py:43-68 | at time seed 1064842017 the float transform reproduces all five values the web page showed |
| DebugRtp.ExactTransform | debug_rtp.py:29 | `(seed * 9301 + 49297) % 233280` on Python integers lies in [0, 233280) |
| DebugRtp.ExactAgreesBelow2To53 | debug_rtp.py:29 | while the seed, the product and the sum stay within 2^53, the exact transform equals the float one |
| DebugRtp.GetSeededRandomIntExact | debug_rtp.py:28-31 | the script's sampler returns a value in [min_val, max_val] whenever that range is not empty |
| DebugRtp.ExactSamplerAgreesBelow2To53 | debug_rtp.py:28-31 | below that bound the script's sampler draws what the bot's sampler draws |
| DebugRtp.ExactDraw | debug_rtp.py:47-53 | the step-by-step computation of the trace is the script's sampler for the RTP range |
| DebugRtp.Trace | debug_rtp.py:37-54 | the traced hash, combined seed, transformed seed and RTP are `Hash`, `CombinedSeed`, `ExactTransform` and the exact sampler's draw, in [30, 99] |
| DebugRtp.ExactTraceMissesFortune2 | debug_rtp.py:33-54 | at time seed 1064842017 the exact trace for FORTUNE_2 transforms to 136275 and shows 96, while the float transform gives 136276 and the bot shows 88 |

## Left out

- The Telegram bot, message formatting, scheduling, `valid_until`, logging and the image-copy script are left out: they are I/O and presentation around the core.
- Reading the clock in the America/Sao_Paulo zone (`datetime.now`, pytz) is left out. The calendar fields are an input (`TimeSeed.CivilTime`), and `Valid()` states the ranges `datetime` guarantees.
- Each `generate_*` function reads the clock again on every call. The model passes one time seed to all of them. Calls that straddle a window boundary are not modelled.
- The filesystem check `os.path.exists(IMAGE_BASE_PATH + image_file)` is an input predicate on the file name. The path prefix is folded into that predicate.
- The catalog `ALL_GAMES` is not reproduced. `Selection.GetHighRtpGames` takes any catalog.
- Selection.Upper: upper-cases ASCII letters only. Python's `str.upper` also maps non-ASCII letters, and some of them to several characters. Provider names are ASCII.
- Sampler.SeedTransform: does not model the overflow paths of the double arithmetic. For a seed that rounds beyond the largest double (about 2^1024), `float(seed)` raises OverflowError. For a smaller seed whose product with 9301 exceeds the largest double, the product becomes infinity, the remainder NaN, and `int` raises ValueError. `RoundToDouble` has no largest double, so the model returns a value there. Combined seeds are about 10^12, far below both bounds.
- Sampler.GetSeededRandomInt: does not model the OverflowError that `rnd * (max_val - min_val + 1)` raises when the range size does not convert to a double (about 2^1024 and up); the model returns an in-range value for every non-empty range. The ranges used are at most 70 wide.
- Prng.Mulberry32: has no reference definition on bv32 words. The model follows the source's emulated 32-bit integers (`Int32.Xor` and `Int32.Or` work on words, the rest on integers wrapped with `to_uint32`/`to_int32`); a proof that the generator equals Mulberry32 written directly on 32-bit words is left out.
- The float values `rnd = result / 4294967296` are represented by their integer numerators. Dividing by 2^32 is exact, so nothing is lost.
- The helper copies of `to_int32`, `to_uint32`, `string_to_hash`, `get_time_seed`, `js_imul` and `seeded_random` in test_rtp_sync.py, verify_fix.py and debug_rtp.py match kiki2test.py. Each is modelled once, in kiki2test.py's form. The one-line `t = ...` form of the second mixing step in those scripts is `Prng.MixAdd`.
- `VerifyFix` and `DebugRtp` work on the fixed constants of the scripts (time seed 1064842017 and five identifiers). Their printed output is left out.
- The strings printed by test_rtp_sync.py for the browser console, and its table over the current bucket, are output only and left out.
- The docstring of `get_time_seed` (kiki2test.py:369) calls the result the total minutes since the epoch, rounded to 3-minute intervals. The formula is not a count of minutes and does not always increase: it drops at month ends, because a month adds 43800 minutes while 31 days are 44640. The model follows the formula; `TimeSeed.MonotoneWithinMonth` and `TimeSeed.DropsAtMonthEnd` state both sides.
- The two turbo labels are stored in kiki2test.py:60 as UTF-8 bytes decoded with the cp1252 code page. `Game.TurboOptions` holds the text those bytes encode: "Ativo" in mathematical bold letters and "Desativado" in mathematical sans-serif bold letters.

## Findings

| source | as written | input that shows it | evidently intended | confidence | as-written member | corrected member |
|---|---|---|---|---|---|---|
| debug_rtp.py:29 | the trace transforms the combined seed with exact integer arithmetic; it is also at debug_rtp.py:47 | time seed 1064842017 with "PG SOFT/FORTUNE_2.webp": combined seed 1066297510778, exact transform 136275, RTP 96, where the web page showed 88 | round each step to a double, as the page does: transform 136276 and RTP 88 | not executed | DebugRtp.ExactTraceMissesFortune2 | VerifyFix.RecordedValuesReproduced |
