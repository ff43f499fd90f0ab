# Deep-Quant agent: verified model

This project models the parts of the trading agent (`agents/deep-quant-loop`) and its Kite token script whose
promises range over all inputs or all runs, and proves them in Dafny 4.11. `dafny verify dfyconfig.toml` checks
everything. It says nothing about the quality of a trade: language models, tool results, classifiers, hashes and
clocks are arbitrary inputs throughout.

| files | what they model |
|---|---|
| `PyStrings`, `PyNumbers` | the Python string and rounding operations used elsewhere |
| `Json`, `JsonLaws` | `json.dumps` and `json.loads` character by character: escapes, surrogate pairs, numbers, nesting |
| `CanonicalJson`, `CanonicalShape`, `CanonicalForms`, `HashChain` | the canonical text of a payload, what it looks like and what it reads back as, the hash chain over it, its checker and the append-only store |
| `Scanner`, `Stance`, `StanceLaws` | the string-aware brace scanner and the debate stances that travel through it |
| `Backtest`, `BacktestLaws`, `Calibration` | the backtest walk, trade scoring, and the calibration table of the forecaster |
| `Fingerprint`, `DimensionStats`, `Contribution`, `Recommendation`, `AttributionReport`, `Conviction` | from journal rows to dimension weights to an attenuated conviction, over real numbers |
| `Base64Url`, `IdentityToken` | the signed identity assertion and its codec |
| `Dotenv`, `DotenvLaws` | reading and updating a dotenv file on its raw text |
| `EventCalendar`, `CalendarAlone`, `CalendarRows`, `CalendarAnswers` | the shared TTL cache under any interleaving of threads and under none, the rows it holds, and what an empty answer means |
| `Messages`, `ToolNode`, `Ledger`, `Judge` | one node of the agent graph at a time: the gates, the finalize guard, the Judge's loop |
| `AgentRun`, `AgentRouting`, `AgentSafety`, `AgentWakes`, `AgentLimits`, `DebateRun` | whole runs of the graph against an adversary that chooses every model reply, tool result and predicate |
| `TradeQa`, `History` | the question-and-answer sub-loop and the history it sends |

Imperative code keeps its form: loops are methods with invariants, proved against a function of their inputs; the
objects that are updated in place are classes (`HashChain.Store`, `Ledger.Book`, `Conviction.Decision`) and the
calibration counters are arrays. A run of the graph, or of the calendar cache, is a fold of one step function over
an arbitrary list of inputs, and the theorems quantify over that list.

## Where the code and its documentation differ

The model follows the code; each item names the lemma that pins it down, and the run or text that shows it.

- `parse_stance` is documented never to raise. It raises when the strength is an integer too large for a double, or
  when reading the text runs out of stack (`Stance.ParseStanceRaises`, `Stance.HugeStrengthRaises`).
- Insertion order shows in `canonical_json` exactly when two keys with the same `str()` carry different values
  (`CanonicalJson.InsertionOrderIgnored`).
- Appending keeps a chain valid only for payloads made of the stored columns. One with a further key is inserted all
  the same, and no later verification passes it (`HashChain.Store.Append`).
- The backtest is documented to be free of look-ahead. A negative `max_horizon_bars` makes it look ahead, and so does
  leaving unresolved trades out (`Backtest.LookAheadFreedom`).
- The base64 decoder is documented to take the base64url alphabet and nothing else. It also takes `+` and `/`, texts
  that are already padded, and texts whose spare bits are not zero (`Base64Url.DecodableIff`, `Base64Url.DecodesLike`,
  `Base64Url.EncodeDecode`, `Base64Url.SecondForms`). A token's segments are checked against the alphabet before they
  are decoded, so of these only the spare bits reach it.
- The event calendar promises that a failure never looks like "no event". An upstream that answers 2xx with a JSON body
  that is no list is published as an empty calendar and answered as fresh (`CalendarRows.EmptyIff`,
  `CalendarAnswers.EmptyAnswerMeans`, `CalendarAnswers.ErrorBodyReadsEmpty`).
- The weight pass is documented never to raise a conviction. It can raise a negative or a non-integer one
  (`Conviction.NeverRaised`).
- The first-turn data gate is documented to need returned data. The feedback to a market-data call that did not parse
  opens it as well, because it carries no error marker (`AgentLimits.RealDataIff`, `AgentLimits.UnreadableRunTrades`).
- The session budget is documented as a hard bound. A model that keeps calling tools never meets it
  (`AgentLimits.BudgetDoesNotEndFetching`).
- `postmortem_pending` is documented to be cleared once its gate has served. It is never cleared
  (`AgentWakes.PostmortemNeverCleared`, `AgentWakes.ServedAndStillUp`).
- A `declare_trade` whose tool failed without the rejection marker is committed, and one that was accepted is not if
  the echo of an unreadable declaration beside it contains the marker (`AgentLimits.OnlyTheMarkerRejects`, `AgentLimits.FailedToolCommits`,
  `AgentLimits.EchoBlocks`).
- In Q&A the refused tools are recognised per call id, so a refused call is dispatched when a later allowed call has
  the same id (`TradeQa.ForbiddenSentIff`, `TradeQa.SharedIdSends`).
- A Q&A run is documented always to end with an answer. It closes on unanswered calls exactly when the turn that uses
  up its budget makes any (`TradeQa.ClosesOpenIff`, `TradeQa.CanCloseOpen`).
- A DEBATE run ends without its Judge exactly when its research ends in a forced stand-aside
  (`DebateRun.JudgeSkippedIff`, `DebateRun.JudgeCanBeSkipped`).
- The Judge's loop goes on after a turn with nothing but refused watches, although its comment says it stops
  (`Judge.GoesOnIff`, `Judge.WatchOnlyGoesOn`).

## Model

| member | source | states |
|---|---|---|
| JsonLaws.LoadsPrinted | agents/deep-quant-loop/hashchain.py:137-150 | Reading a printed tree gives the tree back, for every well-formed tree and every separator and `ensure_ascii` style |
| JsonLaws.PrintInjective | agents/deep-quant-loop/hashchain.py:137-150 | Two trees with the same text are the same tree, even printed in two styles |
| JsonLaws.SpellingRead | agents/deep-quant-loop/debate.py:258-283 | Every spelling of a string literal, with any escapes and surrogate pairs, is read as the string it spells |
| JsonLaws.OnlySpellingsRead | agents/deep-quant-loop/debate.py:258-283 | Nothing but such a spelling is read as a string, and as no other string |
| CanonicalJson.CanonicalTextUnambiguous | agents/deep-quant-loop/hashchain.py:98-150 | Two payloads of any depth have the same canonical text if and only if their canonical forms mean the same value, objects compared as finite maps |
| CanonicalJson.CanonicalTextReadsBack | agents/deep-quant-loop/hashchain.py:98-150 | The canonical text is valid JSON and loads to the canonicalised value |
| CanonicalJson.CanonicalTextIdempotent | agents/deep-quant-loop/hashchain.py:98-150 | Canonicalising first does not change the text |
| CanonicalJson.InsertionOrderIgnored | agents/deep-quant-loop/hashchain.py:98-134 | Every reordering of a dict's items has the same text if and only if keys with the same `str()` carry the same value |
| CanonicalJson.SetOrderIgnored | agents/deep-quant-loop/hashchain.py:98-134 | A set's text does not depend on the order its members are iterated in |
| CanonicalJson.CanonicalTextNoNewline | agents/deep-quant-loop/hashchain.py:137-163 | No raw control character, hence no newline, occurs in a canonical text |
| CanonicalShape.CanonicalTextTight | agents/deep-quant-loop/hashchain.py:137-150 | At every position of a canonical text: whitespace stands only inside a string literal, and an escape only where JSON forces one, in its one short form |
| CanonicalForms.CanonicalKeysInOrder | agents/deep-quant-loop/hashchain.py:137-150 | The text reads as a tree all of whose objects list their keys in code-point order |
| CanonicalForms.DictForm | agents/deep-quant-loop/hashchain.py:123-127 | A dict reads back as an object with exactly one field per `str()` of a key, holding what the last item with it reads as |
| CanonicalForms.SetForm | agents/deep-quant-loop/hashchain.py:130-132 | A set reads back as the `str()` of its members, each as often as it comes, in code-point order |
| CanonicalForms.BytesForm | agents/deep-quant-loop/hashchain.py:132-134 | Bytes read back as two lower-case hexadecimal digits each, of that value |
| CanonicalForms.OtherForms | agents/deep-quant-loop/hashchain.py:98-134 | Non-finite floats and None are written as `null`, and any other object reads back as its `str()` |
| HashChain.MaterialSplits | agents/deep-quant-loop/hashchain.py:153-163 | The hashed material determines both the previous hash and the payload text, whatever the previous hash contains |
| HashChain.ContentsSeen | agents/deep-quant-loop/interaction_log.py:57-132 | Two rows are hashed over the same text if and only if they agree, up to canonical form, in every one of the fourteen payload columns |
| HashChain.VerifyRows | agents/deep-quant-loop/hashchain.py:235-271 | Passes exactly the intact chains; otherwise names the first row that does not reconcile, with the reason and the count of rows read, everything before it being intact |
| HashChain.HashesDistinct | agents/deep-quant-loop/hashchain.py:153-163 | In a verified chain all row hashes, and the genesis constant, are pairwise distinct |
| HashChain.TipDeterminesChain | agents/deep-quant-loop/hashchain.py:196-271 | Two verified chains with the same tip have the same length, hashes and canonical payloads |
| HashChain.EditDetected | agents/deep-quant-loop/hashchain.py:235-271 | Changing what a row says, hashes left alone, is reported at that row as an edit |
| HashChain.DeleteDetected | agents/deep-quant-loop/hashchain.py:235-271 | Deleting any row but the last is reported at the first row after the gap, as a broken link |
| HashChain.SwapDetected | agents/deep-quant-loop/hashchain.py:235-271 | Swapping any two rows is reported at the earlier of the two positions |
| HashChain.TruncationShowsInTip | agents/deep-quant-loop/hashchain.py:196-271 | A chain cut short at its end still verifies, but with another tip |
| HashChain.Store.Append | agents/deep-quant-loop/interaction_log.py:129-186 | Adds exactly one row linked to the tip, or raises and changes nothing; a verified table stays verified if and only if the payload has no key beyond the stored columns |
| HashChain.Store.Verify | agents/deep-quant-loop/interaction_log.py:272-274 | Succeeds exactly on an intact table and counts its rows |
| HashChain.BuiltIntact | agents/deep-quant-loop/interaction_log.py:129-186 | Every store built only by appends of column payloads verifies, with one row per append |
| Scanner.ExtractBalanced | agents/deep-quant-loop/graph.py:1513-1543 | The scan returns the shortest string-aware balanced substring from the first `{`, and None exactly when there is none |
| Scanner.ExtractIs | agents/deep-quant-loop/graph.py:1513-1543 | That shortest substring is unique, so the result is determined |
| Scanner.ExtractPrinted | agents/deep-quant-loop/graph.py:1513-1543 | A printed object of any depth and style is recovered whole from any prose whose part before it has no `{` |
| Stance.CollectArguments | agents/deep-quant-loop/debate.py:321-340 | The argument loop keeps the non-empty stripped texts, in order, and nothing else |
| StanceLaws.StrengthMeans | agents/deep-quant-loop/debate.py:295-318 | A value read as a number gives the nearest whole number from 0 to 100, ties to even, NaN counting as 100; anything else gives 0 |
| StanceLaws.LeanMeans | agents/deep-quant-loop/debate.py:286-292 | The lean a text names, whatever its blanks and capitals, and neutral when it names none |
| StanceLaws.ArgumentMeans | agents/deep-quant-loop/debate.py:321-349 | A null or blank argument is left out and any other is kept as its text without blanks |
| StanceLaws.StanceMeans | agents/deep-quant-loop/debate.py:352-414 | Every field of the stance a mapping gives; it counts as available when it says so, and unsaid when there is an argument, a risk, a lean or a number in it |
| StanceLaws.UnreadableMeans | agents/deep-quant-loop/debate.py:258-414 | What is no mapping, and no text of a JSON object, gives the neutral, empty stance that is not available |
| Stance.ParsedNormal | agents/deep-quant-loop/debate.py:286-414 | Every parsed stance has a known lean, a strength in 0..100, stripped non-empty arguments and a stripped lower-case role |
| Stance.ParseStanceRaises | agents/deep-quant-loop/debate.py:258-414 | Parsing raises if and only if reading the text runs out of stack or the strength is an integer no double can hold |
| Stance.HugeStrengthRaises | agents/deep-quant-loop/debate.py:295-318 | A text of one field that makes it raise, within the interpreter's limits |
| Stance.StanceRoundTrip | agents/deep-quant-loop/debate.py:352-441 | Parsing undoes `stance_to_dict` for every normalised stance |
| Stance.StanceSurvivesProse | agents/deep-quant-loop/graph.py:5634-5646 | A stance that was parsed once, printed in any style and embedded in prose, is extracted and parsed back unchanged, two levels being within the interpreter's limits |
| Backtest.ScoreSignal | agents/deep-quant-loop/backtest.py:511-547 | The scoring loop finds the first bar that touches a level and counts the stop first on it; the last usable timestamp is reported when none does |
| BacktestLaws.ScoreMeans | agents/deep-quant-loop/backtest.py:511-547 | In prices: the first bar that reaches the target or the stop settles the trade, against it when it reached the stop; a win is at the target and its R times the risk is the distance to it, a loss is at the stop and costs one R, an expired trade has neither and the time of the last usable bar |
| Backtest.ScoreIsWorstOrder | agents/deep-quant-loop/backtest.py:511-547 | The score is the worst R over every order in which a bar's two touches can have happened; all orders agree on whether and when the trade resolved, and one attains the score |
| Backtest.ResolvedIsFinal | agents/deep-quant-loop/backtest.py:511-547 | Once resolved on a history, the outcome is the same on every extension of it |
| Backtest.TakenMeans | agents/deep-quant-loop/backtest.py:674-886 | With single-target scoring a bar is taken exactly when the rule signals with some risk and bars are left to score it on; it resolves exactly when one of those touches a level, at the first that does, and is lost exactly when that bar reached the stop |
| BacktestLaws.TakenFrom | agents/deep-quant-loop/backtest.py:727-886 | A result is made of the rule's decision on the lookback window, the labels of the history up to its bar and the score, or managed simulation, over at most the horizon |
| BacktestLaws.SignalsExact | agents/deep-quant-loop/backtest.py:674-886 | Unfiltered, a bar is among the results if and only if it fires and no earlier result's cooldown covers it |
| BacktestLaws.FilteredMeans | agents/deep-quant-loop/backtest.py:450-506 | A result is kept if and only if each enabled filter lets its own label through and, unresolved, it is to be recorded |
| Backtest.GenerateAndScore | agents/deep-quant-loop/backtest.py:674-886 | The loop with its cooldown equals the recursive walk over the bars |
| Backtest.FiltersOnlyRemove | agents/deep-quant-loop/backtest.py:450-506 | For every combination of flags, managed or not, the results are the unflagged run's results filtered in order, also by whether unresolved trades are recorded |
| Backtest.SignalsSpaced | agents/deep-quant-loop/backtest.py:727-886 | Recorded signals are in bar order and at least the cooldown apart |
| Backtest.LookAheadFreedom | agents/deep-quant-loop/backtest.py:674-886 | With single-target scoring, any two histories that agree before a bar give the same signals before it, with the same levels and labels, if and only if the horizon is positive and unresolved trades are recorded, or the horizon is zero |
| Calibration.Count | agents/deep-quant-loop/backtest.py:1449-1540 | One record moves into its bin in all three arrays and no other bin changes |
| Calibration.TallyAll | agents/deep-quant-loop/backtest.py:1449-1540 | After the pass the arrays hold every bin's count, probability sum and realised ups, and the total counts the usable records |
| Calibration.Calibrate | agents/deep-quant-loop/backtest.py:1449-1540 | Each reported bin has the count, mean prediction and realised fraction of the records that fall in it; the error is the mean gap over non-empty bins |
| Calibration.CountsConserved | agents/deep-quant-loop/backtest.py:1449-1540 | Every usable record is counted in exactly one bin |
| Calibration.InBinMeans | agents/deep-quant-loop/backtest.py:1449-1540 | A bin holds exactly the records whose probability reaches its lower edge and not its upper one, and the last bin 1.0 as well |
| Calibration.ErrorIsMeanGap | agents/deep-quant-loop/backtest.py:1449-1540 | The calibration error times the number of non-empty bins is the sum of their distances between prediction and outcome |
| Calibration.BinMeansInRange | agents/deep-quant-loop/backtest.py:1449-1540 | A bin's mean prediction lies within the bin's own edges, its realised fraction between 0 and 1 |
| Calibration.ErrorInUnit | agents/deep-quant-loop/backtest.py:1449-1540 | The calibration error is between 0 and 1, and zero exactly when every non-empty bin came out as predicted |
| Fingerprint.ParseSetupKey | agents/deep-quant-loop/attribution.py:241-295 | The token loop yields each dimension once, in first-seen order, with its last value |
| Fingerprint.TokenMeans | agents/deep-quant-loop/attribution.py:268-294 | Any token, around its first colon: the stripped dimension and value, and `unknown` for a value that is missing, says so in any capitals, or has no dimension |
| Fingerprint.ParsedMeans | agents/deep-quant-loop/attribution.py:241-295 | For any text: each dimension once, with the value of its last token, in the order of the first ones |
| Fingerprint.SetupKeyReadsBack | agents/deep-quant-loop/journal.py:756-757 | Parsing a joined key gives back its tags in order; the placeholder of an untagged trade parses to a dimension of its own |
| DimensionStats.Count | agents/deep-quant-loop/attribution.py:344-438 | One tag of one row adds to exactly one bucket, created on demand |
| DimensionStats.RowTexts | agents/deep-quant-loop/attribution.py:298-341 | Which rows are scored, won and backtested, told from their texts without blanks and capitals |
| DimensionStats.CountRow | agents/deep-quant-loop/attribution.py:344-438 | A row adds to exactly the buckets of the tags its key carries |
| DimensionStats.Tallies | agents/deep-quant-loop/attribution.py:344-438 | The nested in-place tallies equal the group-by of the scored rows: an entry per non-empty group, and no other |
| DimensionStats.ComputeDimensionStats | agents/deep-quant-loop/attribution.py:344-438 | Each value's statistics describe its group: count = wins + losses = backtest + live, a win rate in 0..1, the mean R multiple, the weak-prior flag |
| DimensionStats.ValuesPartition | agents/deep-quant-loop/attribution.py:344-438 | Summed over a dimension's values, the counts give the number of scored rows that carry the dimension, and the backtest counts the backtest rows among them |
| Contribution.ComputeContribution | agents/deep-quant-loop/attribution.py:448-546 | The accumulating loops compute the sample-weighted variance of the usable expectancies, or None below the gate |
| Contribution.PairwiseForm | agents/deep-quant-loop/attribution.py:448-546 | The variance times the squared sample size is the sum over all pairs of values of their squared difference, weighted by both sample sizes |
| Contribution.ZeroIffEqual | agents/deep-quant-loop/attribution.py:448-546 | The contribution is zero if and only if all usable values share one expectancy |
| Contribution.AtMostHalfTheRange | agents/deep-quant-loop/attribution.py:448-546 | It is at most half the distance between any two bounds on the usable expectancies (squared form) |
| Contribution.ShiftInvariant | agents/deep-quant-loop/attribution.py:448-546 | Shifting every expectancy by the same amount changes nothing |
| Contribution.SplitInvariant | agents/deep-quant-loop/attribution.py:448-546 | Splitting one value into two with the same mean changes nothing |
| Contribution.OrderIgnored | agents/deep-quant-loop/attribution.py:448-546 | Neither does listing the values in any other order |
| Contribution.NoneBelowGate | agents/deep-quant-loop/attribution.py:448-546 | None exactly when the usable values have no trade or fewer than the minimum sample |
| Recommendation.SortedKeys | agents/deep-quant-loop/attribution.py:576-692 | The keys of a dict in strict code-point order, each once |
| Recommendation.ReportOn | agents/deep-quant-loop/attribution.py:576-692 | One dimension's entry lists its values in name order with their totals, its contribution and the advice the thresholds give |
| Recommendation.AdviceMeans | agents/deep-quant-loop/attribution.py:584-661 | Insufficient exactly below the sample gate, and above it down-weighted exactly below the threshold and kept exactly from it up |
| Recommendation.FlatIsDownWeighted | agents/deep-quant-loop/attribution.py:584-661 | With enough trades and a positive threshold, a dimension whose values share one expectancy is down-weighted |
| Recommendation.RankAndRecommend | agents/deep-quant-loop/attribution.py:576-692 | Every dimension appears once, in strictly descending contribution with missing ones last and ties by name, and the ranks are 1..N in that order |
| Recommendation.BestFirst | agents/deep-quant-loop/attribution.py:675-690 | Of two ranked entries the first has the higher contribution, or the same and the smaller name; those without one come last |
| AttributionReport.BuildReport | agents/deep-quant-loop/attribution.py:704-815 | End to end: totals count the scored rows, every carried dimension has an entry, and each entry lists every value its rows carry, in order, with that value's statistics, and has the total, backtest and live counts, contribution and advice of the rows that carry it |
| AttributionReport.EntryAdvises | agents/deep-quant-loop/attribution.py:640-661 | An entry of the report is insufficient exactly when too few rows carry its dimension, and down-weighted exactly when enough do and the contribution is below the threshold |
| AttributionReport.DeriveWeightMap | agents/deep-quant-loop/attribution.py:825-893 | Every listed dimension gets the weight its advice stands for, in (0, 1], with an out-of-range factor replaced |
| AttributionReport.WeightsFromRows | agents/deep-quant-loop/attribution.py:1020-1039 | From rows to weights: exactly the carried dimensions get one, and it is the configured factor if and only if at least the minimum number of scored rows carry the dimension and its contribution is below the threshold, and 1 otherwise |
| Conviction.Decision.ApplyWeightMap | agents/deep-quant-loop/graph.py:3504-3592 | Only the conviction and the audit fields change, to the attenuated score and its trace; nothing changes when disabled or without a record |
| Conviction.NearestScore | agents/deep-quant-loop/graph.py:3582-3586 | The new score is the whole number from 0 to 100 nearest to the product with the mean weight, the even one of two that are equally near |
| Conviction.NeverRaised | agents/deep-quant-loop/graph.py:3569-3589 | No mean weight in (0, 1] raises a score if and only if it is not negative and rounding alone does not raise it (or it is at least 100) |
| Conviction.IntegersAreAttenuated | agents/deep-quant-loop/graph.py:3569-3589 | An integer score is never raised, and weights of 1 leave one in range alone |
| Conviction.OrderKept | agents/deep-quant-loop/graph.py:3569-3589 | Attenuating by one positive weight keeps the order of scores |
| Base64Url.DecodeEncode | agents/deep-quant-loop/internal_identity.py:153-168 | Decoding undoes encoding for every byte string |
| Base64Url.EncodeInAlphabet | agents/deep-quant-loop/internal_identity.py:153-195 | The encoding uses only the alphabet of section 5 of RFC 4648, has the unpadded length, and is empty only for no bytes |
| Base64Url.EncodeMeans | agents/deep-quant-loop/internal_identity.py:153-156 | Digit by digit: groups of 24 bits filled with zeros, six bits to a character of the base64url alphabet, no padding |
| Base64Url.EncodeDecode | agents/deep-quant-loop/internal_identity.py:153-168 | For every text: it decodes and is the encoding of its decoding if and only if it is over the alphabet, its length is not 1 modulo 4 and its spare bits are zero |
| Base64Url.DecodableIff | agents/deep-quant-loop/internal_identity.py:158-168 | Which texts decode at all: alphabet characters, `+` and `/`, not 1 modulo 4 of them, then at most the `=` that padding would add |
| Base64Url.DecodesLike | agents/deep-quant-loop/internal_identity.py:158-168 | A text that decodes gives the bytes of its unpadded form over the alphabet |
| Base64Url.SecondForms | agents/deep-quant-loop/internal_identity.py:158-168 | A text of each kind that is not the encoding of the bytes it decodes to |
| IdentityToken.SignedVerifies | agents/deep-quant-loop/internal_identity.py:204-255 | A signed token passes every check but size and time, with its claims read back as they were |
| IdentityToken.RefusedUnread | agents/deep-quant-loop/internal_identity.py:211-243 | For any token: refused in this order as blank, as longer than 4096 characters, as not two base64url segments, for another signature; and else judged by its claims |
| IdentityToken.WindowMeans | agents/deep-quant-loop/internal_identity.py:244-260 | For any claims: which refusal, or overflow, the expiry and the issue time meet, and acceptance up to 30 seconds outside them |
| IdentityToken.SubjectMeans | agents/deep-quant-loop/internal_identity.py:276-285 | An accepted token yields the text under `sub` without its blanks, and is refused if there is nothing else in it |
| IdentityToken.AssertionVerifies | agents/deep-quant-loop/internal_identity.py:204-282 | What verifying any assertion says at any time: too large, expired, issued in the future, or the stripped subject |
| IdentityToken.MintedVerifies | agents/deep-quant-loop/internal_identity.py:263-282 | A token minted at t for ttl verifies at `now` if and only if t - 30 <= now <= t + ttl + 30, and yields the stripped user id |
| IdentityToken.AcceptedIsAuthentic | agents/deep-quant-loop/internal_identity.py:211-255 | An accepted token is a payload followed by that payload's own MAC, read inside its window |
| Dotenv.ReadEnv | scripts/generate_kite_tokens.py:115-127 | The dict is that of the file's lines, later lines winning; a missing file reads as empty |
| DotenvLaws.QuotedLineReads | scripts/generate_kite_tokens.py:115-127 | A line sets its key to what stands inside the blanks, the double and then the single quotes around its value; a comment sets nothing |
| DotenvLaws.LastLineWins | scripts/generate_kite_tokens.py:115-127 | A key has the value its last line gives it, and a key without a line has none |
| DotenvLaws.NewlinesRead | scripts/generate_kite_tokens.py:115-127 | A carriage return, with the line feed after it if there is one, reads as one line feed |
| Dotenv.ReplaceLines | scripts/generate_kite_tokens.py:146-154 | The first loop replaces exactly the lines whose key is updated and remembers exactly those keys |
| Dotenv.AddMissing | scripts/generate_kite_tokens.py:155-159 | The second loop ends an open last line and adds exactly the updates without a line, in order |
| Dotenv.SetEnvKeys | scripts/generate_kite_tokens.py:130-165 | The written text is that of the updated lines; a missing file is reported and not created |
| DotenvLaws.ReadAfterSet | scripts/generate_kite_tokens.py:115-165 | On any raw text, reading after an update gives the old reading overridden by the updates |
| DotenvLaws.OthersKept | scripts/generate_kite_tokens.py:130-165 | Every line whose key is not updated is kept verbatim and in order |
| DotenvLaws.SetTwice | scripts/generate_kite_tokens.py:130-165 | Applying the same update twice gives the same file |
| EventCalendar.RunKeepsInv | agents/deep-quant-loop/event_calendar.py:344-407 | Over every interleaving: the lock is held by exactly one thread, the cache variables tell of the latest published fetch, and each thread's knowledge stays true while others write |
| EventCalendar.AnswersAreFetches | agents/deep-quant-loop/event_calendar.py:344-407 | Every returned list is the normalised rows of one published fetch, younger than the ttl unless marked stale, at most the grace old when it is |
| EventCalendar.AnswersAreLatest | agents/deep-quant-loop/event_calendar.py:344-407 | At its return an answer is from the latest published fetch; the call raises exactly when the upstream failed and nothing cached is within the grace |
| EventCalendar.FetchesAreSpaced | agents/deep-quant-loop/event_calendar.py:344-407 | At most one fetch is under way, and without a forced refresh it started at least a ttl after the last success |
| CalendarAlone.UndisturbedCall | agents/deep-quant-loop/event_calendar.py:312-407 | After any history, a call no other thread interleaves with serves the cache, or fetches and publishes, or serves what is stale, or raises, exactly as the function reads, and changes nothing else |
| CalendarRows.NormaliseRows | agents/deep-quant-loop/event_calendar.py:257-287 | The loop keeps exactly the rows with a symbol, a convertible date and a matching purpose, projected, in order |
| CalendarRows.EventMeans | agents/deep-quant-loop/event_calendar.py:242-287 | Which rows are events, and each event's symbol, date, purpose and company told from the payload's fields |
| CalendarRows.EventsJoin | agents/deep-quant-loop/event_calendar.py:257-287 | Rows are judged one by one and kept in order |
| CalendarRows.EventDates | agents/deep-quant-loop/event_calendar.py:257-287 | Every row that is kept has a date that exists in the calendar |
| CalendarRows.EmptyIff | agents/deep-quant-loop/event_calendar.py:257-287 | A payload comes to an empty calendar if and only if it is no list, or none of its rows is an event |
| CalendarAnswers.EmptyAnswerMeans | agents/deep-quant-loop/event_calendar.py:344-407 | Over every interleaving an answer is given from a published fetch, and is empty if and only if that payload was no list or a list without an event |
| CalendarAnswers.ErrorBodyReadsEmpty | agents/deep-quant-loop/event_calendar.py:312-407 | A first call whose upstream answers with a JSON error object returns an empty list, not marked stale, instead of raising |
| CalendarRows.IsoReadsBack | agents/deep-quant-loop/event_calendar.py:189-239 | A date in the output form passes through unchanged |
| CalendarRows.IsoReads | agents/deep-quant-loop/event_calendar.py:189-239 | A date in the output form is read as exactly that date if it exists, whatever follows it, and dropped if not |
| CalendarRows.DateExists | agents/deep-quant-loop/event_calendar.py:223-239 | The dates that pass are those of the years 1970 to 2999 that exist, told by counting leap days |
| CalendarRows.ToIsoIdempotent | agents/deep-quant-loop/event_calendar.py:189-239 | Converting twice is converting once |
| CalendarRows.NseReads | agents/deep-quant-loop/event_calendar.py:189-239 | A date in the upstream's format is read as exactly that date if it exists, and dropped if not |
| ToolNode.Gate | agents/deep-quant-loop/graph.py:4284-4342 | A gate's loop splits the calls into those held back and those passed on, in order |
| ToolNode.FindResume | agents/deep-quant-loop/graph.py:4424-4465 | The first watch result that starts with a resume marker decides the kind of wake |
| ToolNode.Answer | agents/deep-quant-loop/graph.py:4248-4605 | The node with its four gates, one dispatch and early returns computes the appended messages, the hand-off, the wake and the decision of the specification |
| ToolNode.GatesExclude | agents/deep-quant-loop/graph.py:4284-4342 | The research, data and heartbeat gates never hold calls back together, so no early return drops an answer |
| Messages.CoreResolvedIff | agents/deep-quant-loop/graph.py:1989-2033 | The core data is resolved exactly when every core tool has answered, be it that the data is unavailable, but not only with errors |
| ToolNode.DispatchedIff | agents/deep-quant-loop/graph.py:4275-4383 | For every call, exactly which gate holds it back, and exactly when it is run |
| ToolNode.EveryCallAnswered | agents/deep-quant-loop/graph.py:4248-4605 | Every call id of the assistant message is answered exactly once, for every mix of calls and every gate state |
| Ledger.Book.Finalize | agents/deep-quant-loop/graph.py:3985-4080 | A thread's first call journals and records once; later ones return the first record and write nothing |
| Ledger.OncePerThread | agents/deep-quant-loop/graph.py:3985-4080 | Over every history of finalize calls a thread is journaled at most once, with its first record, which every later call returns |
| Ledger.JournalMeans | agents/deep-quant-loop/graph.py:3985-4080 | The whole journal of a history: the calls without a thread and the first call of each thread, in order |
| AgentRun.TurnBound | agents/deep-quant-loop/graph.py:4607-4696 | A run with N turns that made calls has at most (N + 1) times the reasoning budget agent turns, in every mode, whatever the hunt predicates say |
| AgentRouting.NextAfterTurn | agents/deep-quant-loop/graph.py:4607-4696 | In every run, where an agent turn leads: with prose back to the agent if and only if fewer prose turns in a row than the budget have been taken and the session budget is not spent, else to the forced end, the debate or the forced HOLD |
| AgentRouting.ForcedHoldCommittedIff | agents/deep-quant-loop/graph.py:4660-4767 | A forced HOLD is committed if and only if exactly the budget of prose turns in a row came just before it, outside DEBATE |
| AgentRouting.HandOffIff | agents/deep-quant-loop/graph.py:4467-4500 | The tools node hands research off if and only if the message has a well-formed declaration |
| AgentRouting.NextAfterTools | agents/deep-quant-loop/graph.py:4836-4853 | In every run, where the tools lead: in DEBATE to Bull if and only if the message declares; else to the end if and only if a decision is committed |
| AgentRouting.GatingHoldIff | agents/deep-quant-loop/graph.py:4502-4560 | The data-limitation HOLD is committed if and only if a declaration comes outside research, before usable data, after a market-data tool was tried |
| AgentRouting.StepDecides | agents/deep-quant-loop/graph.py:4699-4806 | Which decision each node leaves: the forced ends a HOLD each, the Judge its verdict, the tools what they commit, the others none |
| AgentRouting.StandAsideRunIff | agents/deep-quant-loop/graph.py:4309-4342 | A stand-aside is run if and only if it is well-formed, outside research, with data seen, and no heartbeat waits for core data that no cap has cut short |
| AgentRouting.AppendedAnswers | agents/deep-quant-loop/graph.py:4467-4605 | The node appends tool messages only, and one message without calls after them with that HOLD |
| AgentRouting.DataSeenIff | agents/deep-quant-loop/graph.py:4184-4192 | Over every run data counts as seen if and only if some agent turn so far was shown usable data |
| AgentRouting.WakeMeans | agents/deep-quant-loop/graph.py:4418-4465 | The wake is that of the first watch answer with a marker, and there is none without one |
| AgentRouting.ForcedEndAnswers | agents/deep-quant-loop/graph.py:4770-4806 | The forced end answers exactly the live watches of the last message |
| AgentSafety.OneCommitAtTheEnd | agents/deep-quant-loop/graph.py:4607-4853 | In every run from a fresh thread a decision is there exactly when the run has ended, and it was committed once, by the last step |
| AgentSafety.CommitMeans | agents/deep-quant-loop/graph.py:4284-4605 | A commit in the tools node is either the data-limitation stand-aside, after attempts without usable data, or an unrejected declaration after data was seen, outside research, and directional while the heartbeat gate is up |
| AgentSafety.TradesAreGrounded | agents/deep-quant-loop/graph.py:4184-4605 | A FIND or VERIFY run that ends in BUY or SELL has one assistant message that declared it, followed by the answers to all its calls and nothing else, none of them a rejection, with usable market data in the history strictly before it |
| AgentWakes.FlagsTellWakes | agents/deep-quant-loop/graph.py:4418-4465 | Over every run the two resume flags equal "the last marked wake was a heartbeat" and "some wake was an invalidation" |
| AgentWakes.GatesFollowWakes | agents/deep-quant-loop/graph.py:4309-4383 | In any run, a heartbeat wake with core data missing admits no stand-aside before a cap fires, and after an invalidation a well-formed watch that repeats the thesis is armed if and only if no consensus report gives an ATR |
| AgentWakes.PostmortemNeverCleared | agents/deep-quant-loop/graph.py:4344-4440 | After the first invalidation the post-mortem flag is up at every later step of the run, and the gate holds back every well-formed repeat it meets while a consensus report gives an ATR |
| AgentWakes.ServedAndStillUp | agents/deep-quant-loop/graph.py:4344-4440 | The six-step run, from a consensus report with an ATR, in which the gate has answered a repeated watch without arming it and is still up |
| AgentLimits.RealDataIff | agents/deep-quant-loop/graph.py:1899-1957 | For every set of ways in which calls may fail: trades rest on data a tool returned if and only if no failing call both names a market-data tool and gets feedback that passes for usable |
| AgentLimits.UnreadableRunTrades | agents/deep-quant-loop/graph.py:1702-1714 | The four-step run that trades on the feedback to a call that did not parse |
| AgentLimits.OnlyTheMarkerRejects | agents/deep-quant-loop/graph.py:2117-2133 | For every message: its first well-formed declaration is committed if and only if no gate holds a declaration back, no declaration that was run is answered with the marker and no unreadable declaration echoes it |
| AgentLimits.FailedToolCommits | agents/deep-quant-loop/graph.py:2117-2133 | A declaration whose tool failed with an error is committed |
| AgentLimits.EchoBlocks | agents/deep-quant-loop/graph.py:2117-2133 | A good declaration is not committed beside an unreadable one whose echoed fragment contains the marker |
| AgentLimits.RejectedTakesBoth | agents/deep-quant-loop/graph.py:2117-2133 | Of two declarations, neither is committed when one is rejected |
| AgentLimits.BudgetDoesNotEndFetching | agents/deep-quant-loop/graph.py:4632-4679 | For every n there is a run of n fetch rounds still in the loop while cap and budget report exhaustion |
| AgentLimits.AdvocateOnce | agents/deep-quant-loop/graph.py:5920-5934 | The devil's advocate speaks at most once in a run, only in VERIFY, and with usable market data in the history before it |
| AgentRouting.AdvocateSpeaksIff | agents/deep-quant-loop/graph.py:5920-5934 | The devil's advocate has spoken if and only if some agent turn of a VERIFY run started with usable data there |
| Judge.LookUp | agents/deep-quant-loop/graph.py:6131-6154 | Read-only calls are run in order while the budget lasts and answered with a note after that |
| Judge.GoesOnIff | agents/deep-quant-loop/graph.py:6042-6159 | The loop goes on after a turn if and only if the model replied with a well-formed call and, if it declared, the validator rejected one of the declarations |
| Judge.WatchOnlyGoesOn | agents/deep-quant-loop/graph.py:6083-6100 | A turn with nothing but a watch is refused, runs nothing, and the loop goes on |
| Judge.Deliberate | agents/deep-quant-loop/graph.py:6036-6159 | The bounded loop equals the recursion over its turns |
| Judge.JudgeMeans | agents/deep-quant-loop/graph.py:6036-6159 | From the Judge's replies alone: how many turns are taken, the decision that is left, and as many look-ups as were asked for and the budget allows |
| Judge.TurnAnswers | agents/deep-quant-loop/graph.py:6042-6159 | After a turn each of its calls is answered once, except look-ups beside a declaration |
| Judge.JudgeBounded | agents/deep-quant-loop/graph.py:5971-6230 | Whatever the model does: at most budget + 2 model calls, at most budget read-only executions, never a watch, and a decision at the end that no validator answer of its turn rejected |
| DebateRun.SetupOf | agents/deep-quant-loop/debate.py:134-217 | Under every environment the rounds, turns and judge calls stay within the absolute caps and the turn limit fits the rounds |
| DebateRun.SetupMeans | agents/deep-quant-loop/debate.py:134-217 | A setting within its range counts, and for any other the default: one round, just the turns the rounds need, two look-ups |
| DebateRun.DebateEnds | agents/deep-quant-loop/graph.py:4274-4853 | Under every environment no trade is committed before the Judge; a run the Judge ended had exactly the configured rounds of both roles and one Judge turn, 2·rounds + 1 turns within the limits |
| DebateRun.JudgeSkippedIff | agents/deep-quant-loop/graph.py:4632-4679 | A DEBATE run that is over had no Judge if and only if some agent turn of it ended the hunt: prose with the session budget spent, or a watch armed past the cap |
| DebateRun.JudgeCanBeSkipped | agents/deep-quant-loop/graph.py:4660-4672 | For every setting and opening there is such a run, of one turn |
| DebateRun.DebateSchedule | agents/deep-quant-loop/graph.py:5765-6263 | From the hand-off on, Bull and Bear alternate for exactly the configured rounds, then the Judge speaks once, and the run has ended after 2·rounds + 1 steps |
| DebateRun.ScheduleFromHandOff | agents/deep-quant-loop/graph.py:5765-6263 | So it is in every DEBATE run, from the step at which its research hands off |
| History.FindLastHuman | agents/deep-quant-loop/graph.py:1846-1896 | The first pass finds where the current turn starts |
| History.Flatten | agents/deep-quant-loop/graph.py:1846-1896 | The two passes compute the flattened history |
| History.FlattenLaws | agents/deep-quant-loop/graph.py:1846-1896 | The current turn is kept verbatim, nothing before it is a tool call or a tool output, and flattening twice is flattening once |
| History.ProseIsKept | agents/deep-quant-loop/graph.py:1846-1896 | Of the earlier turns exactly the human messages and the replies that say something are sent, in order, the replies without their calls |
| History.FlattenedPairedIff | agents/deep-quant-loop/graph.py:1846-1896 | What is sent is fully paired, no answer before its call, if and only if the current turn is |
| TradeQa.AnswerQa | agents/deep-quant-loop/graph.py:5361-5412 | The node's three lists give the specified answers, in order |
| TradeQa.EveryQuestionCallAnswered | agents/deep-quant-loop/graph.py:5361-5412 | Every call of a Q&A message is answered exactly once |
| TradeQa.ForbiddenSentIff | agents/deep-quant-loop/graph.py:5320-5377 | A declaration or a watch reaches the tools if and only if a later allowed call has its id |
| TradeQa.SentMeans | agents/deep-quant-loop/graph.py:5320-5377 | A call is sent if and only if the last call with its id is well-formed and neither declares nor watches, and it starts no debate and no other analysis |
| TradeQa.SharedIdSends | agents/deep-quant-loop/graph.py:5320-5377 | A declaration followed by a look-up with the same id is sent |
| TradeQa.QaKeepsTheTrade | agents/deep-quant-loop/graph.py:5225-5545 | Over every Q&A run the decision stays, messages only grow, there are at most max(1, 8 - q0) model turns, and every call is answered once save those of a closing message that used up the budget |
| TradeQa.ClosesOpenIff | agents/deep-quant-loop/graph.py:5526-5545 | A turn closes the run on unanswered calls if and only if it makes calls and uses up the turn budget |
| TradeQa.CanCloseOpen | agents/deep-quant-loop/graph.py:5225-5545 | Whatever the thread's turn count was, some run closes on an unanswered call |
| TradeQa.QaEnds | agents/deep-quant-loop/graph.py:5225-5545 | A Q&A run is over after at most twice that many steps |

## Left out

- Backtest.LookAheadFreedom: is stated for single-target scoring only; the managed-trade simulator of `trade_manager` is an arbitrary function here, which may discard a signal for what came later.
- AgentSafety.TradesAreGrounded: "usable" is the code's own test on the message text; that it can be met without a tool's answer is what AgentLimits.RealDataIff states.
- IdentityToken.MintedVerifies: is stated for a clock in whole seconds; with a fractional clock the expiry is a float sum, whose rounding is not modelled (AssertionVerifies covers any two given times).
- Conviction.NeverRaised: scores that are NaN or infinite are not modelled.
- Contribution.AtMostHalfTheRange: the square root and the four-decimal roundings of rates, expectancies and contributions are not modelled; contributions are kept squared, over real numbers, as are all other sums here.
- EventCalendar.AnswersAreFetches: the purposes setting is fixed, the clock does not run backwards, and `reset_cache` is not called.
- Stance.ParseStanceRaises: where the interpreter runs out of stack, and how many digits of an integer it converts, are arbitrary conditions on the text; `str(x)` of a value inside a mapping is taken not to raise.
- JsonLaws.LoadsPrinted: the interpreter's limits on nesting and on the digits of an integer, in reading and in writing, do not occur, here and in the canonical JSON built on it.
- Stance.StanceSurvivesProse: `float(text)` and `str(x)` of a JSON value are arbitrary functions, and lower-casing outside ASCII and the Kelvin sign is the identity.
- HashChain.BuiltIntact: SHA-256 is any function that does not collide and never returns the empty or the genesis text; SQLite is a sequence of rows, its triggers and transactions are not modelled, nor that a value read back has the type it was stored with.
- JSON: the constants `NaN` and `Infinity`, and lone surrogates, which Python's reader accepts; a finite float is identified with the text `repr` gives it.
- Which calls a reply contains (the text-scanning tiers of `extract_tool_calls`) is arbitrary: any list of calls with any statuses and ids.
- Pruning is an arbitrary choice of messages to keep, and compaction keeps a message's usable, unavailable or error tag; prompts, model binding and streaming do not occur.
- The `opportunity` predicates are arbitrary booleans at every step, so the session counters that only feed them are not kept; nor are the re-sizing of a watch's invalidation level and the tier stamp.
- LangGraph's suspension, re-execution of an interrupted node and checkpointing: a suspended watch simply answers.
- AgentRouting.ForcedEndAnswers: `force_terminal` answers only live watches, so it leaves other calls of the last message open; likewise the Judge leaves look-ups beside a declaration open (Judge.TurnAnswers).
- Bull's and Bear's stances and the consensus they give are not part of the run machine; a stance that makes the parser raise ends the process there.
- The contents of the defensibility record, of Q&A sub-agent answers and of journal rows; write failures of the journal and the recommendation store.
- The signal rules, the four classifiers and their labels' contents, `compare` and the other reports built on the walk.
- Environment resolvers other than the debate's; service tokens; `rows_for_symbol`; decoding errors of a dotenv file that is not UTF-8, and its replacement by rename.
