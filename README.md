# Rock-Paper-Scissors move advisor

A Dafny model of the move-recommendation logic of the Gutas game server
(`geminiHelper.js`). Players of a seven-round Rock-Paper-Scissors match may ask
for advice from round 3 on. The server either asks an external language model
for one word, or, when no client is configured or the reply is unusable, falls
back to a deterministic heuristic. The heuristic works as follows:

- The sum of the player name's UTF-16 code units is the seed.
- `seed % 3` picks how the opponent's moves are tallied. Strategy 0 counts the
  last three moves. Strategy 1 counts the moves of rounds the player lost.
  Strategy 2 counts every move and adds 0.5 to one bucket.
- A left fold over the keys `rock, paper, scissors` picks the largest bucket.
  On equal buckets it keeps the earlier key if the seed is even and the later
  key if it is odd.
- The result is the move that beats the chosen move.

Files:

- `moves.dfy`: modules `Options` and `Moves`. They hold the move type, the
  counter-move table, the move names and their validation list.
- `heuristic.dfy`: module `Heuristic`, which models `fallbackRecommendation`.
  It has specification functions (`Tallied`, `MostFrequent`, `Fallback`). It
  also has the imperative tally the source builds in place (`CountInto`,
  `BuildTally`, `FallbackRecommendation`), proved equal to them.
- `advisor.dfy`: module `Advisor`, which models `generateRPSRecommendation`.
  The external call is abstracted, and an ASCII instance of the reply
  normalisation is included.

Modelling choices:

- The player name is a sequence of UTF-16 code units (`PlayerName`). This is
  because `split("")` and `charCodeAt(0)` sum code units, not characters.
  `Units` converts a Basic-Multilingual-Plane string. The defaulted
  parameter is an `Option`: `None` stands for the default `"Player"`, whose seed
  is 621.
- Tallies are `real`, because the source adds `0.5` to JavaScript numbers.
- The external call is two inputs. `clientConfigured` says whether a client
  exists (`ai` is non-null). `Reply` says whether the call threw or returned
  text. `trim().toLowerCase()` is a function parameter `normalise`.
  `AsciiNormalise` is an instance of it that is exact for replies whose
  letters are ASCII.

Two consequences of the code are worth stating. The second runs against the
code's own comment and variable name:

- On equal buckets the fold keeps the later key for an odd seed. So a
  three-way tie goes to the last largest bucket (scissors), not to the first
  (`MostFrequentByParity`).
- The bias at geminiHelper.js:139-140 runs only when `playerHash % 3 == 2`, so
  `choices[playerHash % 3]` is always scissors. The comment at
  geminiHelper.js:137 and the name `randomChoice` at geminiHelper.js:139 call it
  randomisation by name, but it never varies
  (`BiasIsScissors`).

## Model

| member | source | states |
|---|---|---|
| `Moves.Counter` | geminiHelper.js:152-159 | the counter of a move beats it, and it is the only move that does |
| `Moves.Name` | geminiHelper.js:153-157 | every move's string is one of the three names the reply is validated against |
| `Moves.Parse` | geminiHelper.js:96 | a string is accepted exactly when it is one of "rock", "paper", "scissors", and then it is the name of the parsed move |
| `Moves.ParseName` | geminiHelper.js:96 | reading back a move's name gives the move, so the three names are distinct |
| `Heuristic.ResolveName` | geminiHelper.js:111 | no contract of its own: an omitted name becomes "Player"; `DefaultNameHash` states what that default yields |
| `Heuristic.NameHash` | geminiHelper.js:115-117 | the seed is a natural number bounded by 0xFFFF per code unit, and it is zero exactly when every code unit is zero |
| `Heuristic.NameHashAppend` | geminiHelper.js:115-117 | the seed of a concatenated name is the sum of the parts' seeds |
| `Heuristic.DefaultNameHash` | geminiHelper.js:111-118 | the default name "Player" has seed 621, so it uses strategy 0 and the odd tie-break |
| `Heuristic.Opponents` | geminiHelper.js:121 | the opponent moves are, position by position, the entries' `opponentChoice` |
| `Heuristic.Recent` | geminiHelper.js:126 | `slice(-3)` keeps min(3, n) moves, and they are the last ones in order |
| `Heuristic.LostRounds` | geminiHelper.js:130 | the filtered rounds all have result "lose", form a sub-multiset of the history, and there are none when no round was lost |
| `Heuristic.LostRoundsComplete` | geminiHelper.js:130 | the filter is complete: every round with result "lose" is kept |
| `Heuristic.LostOccurrences` | geminiHelper.js:130-131 | counting a move among the filtered rounds' opponent moves gives exactly the number of lost rounds in which the opponent played it |
| `Heuristic.OccurrencesTotal` | geminiHelper.js:121-141 | the per-move counts of a move sequence add up to its length |
| `Heuristic.Tally.Add` | geminiHelper.js:140 | `moveCount[m] += d` changes the bucket of `m` by `d` and no other bucket |
| `Heuristic.Considered` | geminiHelper.js:124-135 | no contract of its own: the moves each strategy counts; `RecentTotal`, `RecentOnlyLastThree`, `LostOccurrences` and `LostTotal` characterise it |
| `Heuristic.Tallied` | geminiHelper.js:120-141 | no contract of its own: the finished `moveCount`; `BuildTally`, `RecentTotal`, `LostTallyPerMove`, `BiasIsScissors` and `FullHistoryNoScissorsTie` characterise it |
| `Heuristic.CountInto` | geminiHelper.js:127 | the `forEach(... moveCount[move]++)` loop raises each bucket by the number of times its move occurs |
| `Heuristic.BuildTally` | geminiHelper.js:120-141 | the tally built branch by branch, with the counting loop and the bias mutating one tally, equals the specification `Tallied` |
| `Heuristic.RecentTotal` | geminiHelper.js:124-127 | strategy 0 counts exactly min(3, \|history\|) moves in all |
| `Heuristic.RecentOnlyLastThree` | geminiHelper.js:126-127 | under strategy 0 only the last three entries affect the tally |
| `Heuristic.LostTallyPerMove` | geminiHelper.js:128-131 | under strategy 1 each bucket equals the number of lost rounds in which the opponent played its move |
| `Heuristic.LostTotal` | geminiHelper.js:128-131 | strategy 1 counts exactly one move per lost round |
| `Heuristic.NoLossesNoCounts` | geminiHelper.js:128-131 | under strategy 1, with no lost round every bucket stays 0 |
| `Heuristic.NonLossIgnored` | geminiHelper.js:130-131 | under strategy 1, appending a won or tied round leaves the tally unchanged |
| `Heuristic.BiasIsScissors` | geminiHelper.js:132-141 | in the strategy 2 branch the bias bucket `choices[hash % 3]` is always scissors, and the tally is the full count plus 0.5 on scissors |
| `Heuristic.FullHistoryNoScissorsTie` | geminiHelper.js:132-141 | strategy 2's tally totals \|history\| + 0.5, and scissors never ties with rock or paper |
| `Heuristic.Pick` | geminiHelper.js:144-150 | the reducer returns one of its two arguments, whose bucket is at least both buckets |
| `Heuristic.Reduce` | geminiHelper.js:144-150 | the fold returns the start or one of the keys, and its bucket is at least every bucket it passed over |
| `Heuristic.MostFrequent` | geminiHelper.js:144-150 | the selected move's bucket is maximal |
| `Heuristic.MostFrequentByParity` | geminiHelper.js:144-150 | the fold with its tie-break selects the first largest bucket in key order for an even seed and the last for an odd seed |
| `Heuristic.StrictMaxChosen` | geminiHelper.js:144-150 | a strictly largest bucket is selected whatever the seed |
| `Heuristic.Fallback` | geminiHelper.js:111-160 | the heuristic returns "" exactly when the history has fewer than 2 entries, and otherwise one of the three move names |
| `Heuristic.FallbackBeatsMostFrequent` | geminiHelper.js:143-159 | past the length guard, the answer names a move that beats the selected move, and the selected move's bucket is maximal |
| `Heuristic.AllZeroByParity` | geminiHelper.js:143-159 | with all buckets zero, an even seed selects rock and answers "paper", and an odd seed selects scissors and answers "rock" |
| `Heuristic.NoLossesByParity` | geminiHelper.js:128-159 | under strategy 1 with no lost round, the answer depends only on the seed's parity ("paper" if even, "rock" if odd) |
| `Heuristic.FullHistoryScissorsLead` | geminiHelper.js:132-159 | under strategy 2, when scissors has at least as many counts as each other move, the 0.5 bias makes it win and the answer is "rock" |
| `Heuristic.AnnExample` | geminiHelper.js:111-159 | for the name "Ann" (seed 285), three different recent moves tie and the odd tie-break yields "rock" |
| `Heuristic.FallbackRecommendation` | geminiHelper.js:111-160 | the imperative heuristic (hash, in-place tally, fold, counter lookup) returns exactly `Fallback`, and "" exactly when there are fewer than 2 entries |
| `Advisor.Generate` | geminiHelper.js:18-108 | the recommendation is "" exactly when `currentRound < 3` or the history has fewer than 2 entries, and otherwise one of the three move names |
| `Advisor.ReplyAccepted` | geminiHelper.js:88-97 | past the guard, a non-empty reply whose normal form is a move name is returned as that name |
| `Advisor.FailureFallsBack` | geminiHelper.js:30-107 | past the guard, a missing client, a thrown call, an empty reply or an out-of-vocabulary reply all yield the heuristic's answer |
| `Advisor.NoClientIgnoresReply` | geminiHelper.js:31-36 | without a configured client the result does not depend on the reply or the normalisation |
| `Advisor.TrimStart` | geminiHelper.js:93 | the result is the suffix left after a run of trimmable characters, and it does not start with one |
| `Advisor.TrimEnd` | geminiHelper.js:93 | the result is the prefix left before a run of trimmable characters, and it does not end with one |
| `Advisor.Trim` | geminiHelper.js:93 | no contract of its own: `trim()` as `TrimEnd` after `TrimStart`, whose contracts characterise it, with `TrimUntrimmed` and `TrimPadded` |
| `Advisor.LowerChar` | geminiHelper.js:93 | an ASCII capital becomes its lower-case letter, every other character is unchanged, and no capital remains |
| `Advisor.LowerAscii` | geminiHelper.js:93 | lowering keeps the length and maps each character on its own |
| `Advisor.AsciiNormalise` | geminiHelper.js:93 | no contract of its own: `trim().toLowerCase()` for ASCII letters; `AsciiNormaliseIdempotent` and `AsciiNormalisePadded` characterise it |
| `Advisor.TrimUntrimmed` | geminiHelper.js:93 | a string with no trimmable character at either end is its own trim |
| `Advisor.AsciiNormaliseIdempotent` | geminiHelper.js:93 | normalising twice is the same as normalising once |
| `Advisor.TrimPadded` | geminiHelper.js:93 | `" Paper\n"` trims to `"Paper"`: one leading blank and one trailing line feed are removed |
| `Advisor.AsciiNormalisePadded` | geminiHelper.js:93 | `" Paper\n"` normalises to `"paper"` |
| `Advisor.PaddedReplyAccepted` | geminiHelper.js:83-97 | a padded, capitalised reply `" Paper\n"` is accepted as "paper" |

## Left out

- The Gemini client construction and API-key checks (geminiHelper.js:1-16) are environment and library code. They become the boolean `clientConfigured`.
- The prompt text (geminiHelper.js:39-73) is presentation-only formatting and embeds `Date.now()`. The `opponentName` parameter is used only there, so `Generate` has no such parameter.
- The model request and the extraction of text from its response (geminiHelper.js:75-86) are a foreign call. They become the `Reply` input: `Threw`, or `Answered(text)` with the extracted text, which is `""` when the response had none.
- Advisor.AsciiNormalise: `toLowerCase` is exact only for ASCII letters. JavaScript's full Unicode case mapping (for example U+212A KELVIN SIGN to `k`) is not modelled. `Generate` therefore takes the normalisation as a parameter, and its lemmas hold for every normalisation.
- The `console.*` logging and the `async`/`await` structure are not modelled.
- History entries are typed. An `opponentChoice` outside the three moves is not modelled. When the active strategy counts it, `moveCount[move]++` adds an extra key named after that value, holding `NaN` (`undefined++`). For a name such as "lizard" that key comes after scissors. Every comparison with `NaN` is false, so the reducer at geminiHelper.js:144-150 returns that key at its last step, and the heuristic returns `undefined`. Integer-like names are ordered before rock, and names of inherited properties such as "toString" behave differently again. A `result` other than "lose" is modelled as `Win` or `Tie`, which behaves the same since only "lose" is tested.
- The player name is always a sequence of code units. A `null` or other non-string `playerName` is not modelled, except `undefined`, which takes the default at geminiHelper.js:111 and is the model's `None`. Past the length guard at geminiHelper.js:112 it would throw at `split`. Before that guard the heuristic returns `""` as the model does.
- The history is always a sequence. A `gameHistory` without a numeric `length` is not modelled. The guard at geminiHelper.js:26 tests `currentRound < 3` first, so such a value only matters when `currentRound >= 3`. Then `null` or `undefined` throws at `length`. Another value without a numeric `length` passes the guard. It then throws at the `.map` at geminiHelper.js:40 when a client is configured, or at :121 inside the call at geminiHelper.js:35 when none is. In every case the fallback call at geminiHelper.js:106 throws again (at geminiHelper.js:112 or :121), so the call rejects. A string or array-like value with a numeric `length` is not modelled either.
- Advisor.Generate: `currentRound` is typed `int`. In JavaScript a `currentRound` that converts to `NaN` (`undefined`, `"x"`) makes `currentRound < 3` false, so the guard does not fire for it. Values that convert to numbers (`null`, `"2"`, `[]`) behave like those numbers. So the guarantee that the result is `""` exactly when `currentRound < 3` or the history is short holds for numeric rounds, not for rounds that convert to `NaN`.
- Heuristic.NameHash: the sum is an unbounded integer. JavaScript numbers lose precision above 2^53, which only a name of more than 2^37 code units could reach.
- `app.js` is not modelled. Lines 1-12 are Express, HTTP, socket.io and CORS set-up. Lines 14-15 only declare `waitingPlayer` and `games`. The matchmaking and session engine that would use them is not part of this model.
