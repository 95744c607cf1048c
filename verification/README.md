# Badminton doubles queue — a Dafny model

This project models the core of a small badminton club app. Players join a queue. The app forms
2-vs-2 doubles matches from the queue and puts them on courts. When a match completes, its four
players go back to the queue.

The matcher lives in `src/utils/queueMatcher.js`. It works as follows:
- It shuffles the queue within tiers of equal games played.
- It sorts the players into four buckets: male or female, beginner or intermediate.
- It lists every balanced pattern that fits the queue. A pattern is balanced when both teams have
  the same gender signature (MM, FF or MF) and the same category signature (BB, II or BI).
- It keeps the pattern with the lowest total of games played, breaking ties on the highest single
  count.
- Only on request, and only when no balanced pattern fits, it falls back to three of one category
  in a same-gender match.

Around the matcher the model covers:
- the app's reducer (ADD_PLAYER, REMOVE_PLAYER, COMPLETE_MATCH);
- the manual match dialog's selection rules;
- the per-court decisions of the match list;
- the court counter;
- the end-of-queue summary: merging players, counting, sorting, and the quarter-shuttle formatter.

Randomness is an explicit stream of draws (`Shuffling.Rng`). Time is a parameter (`App.Env`).
Every operation is a pure function.

Modules, one per source unit:
- `Players`: player records, team signatures, and the balanced and fallback shapes;
- `Shuffling`: `shuffle`, `shuffleWithinTies`;
- `Patterns`: buckets and the fixed list of patterns;
- `Partners`: `randomizePartners`;
- `QueueMatcher`: `matchScore`, `tryCreateMatch`;
- `QueueRounds`: `createMatchesFromQueue`, `getAvailableCourts`, `canCreateMatch`;
- `App`: the reducer and its invariant;
- `ManualMatchMaker`, `MatchList`, `CourtConfig`, `EndQueueSummary`: the components;
- `Wrappers` and `Seqs`: generic helpers.

The central result is `App.ReachableInv`. It says that in every state reachable from the initial
state:
- every player record is held exactly once, in the queue or in one match;
- player ids are unique and below the id counter;
- match ids are unique and below the match counter;
- every match on court is balanced.

## Model

| member | source | states |
|---|---|---|
| Shuffling.Shuffle | src/utils/queueMatcher.js:13-20 | The Fisher-Yates shuffle returns a permutation of its input: same length, same elements with the same multiplicities. |
| Shuffling.ShuffleWithinTies | src/utils/queueMatcher.js:26-39 | The result is a permutation of the players in which games played never decreases, with a missing count read as 0. Only the order inside one tier depends on the draws. |
| Players.MaxGames | src/utils/queueMatcher.js:95 | The maximum is an upper bound on every player's games and is reached by some player of a non-empty list. |
| Players.SumGamesPermutation | src/utils/queueMatcher.js:94 | The games total of a list does not depend on the order of its players. |
| Patterns.KindFacts | src/utils/queueMatcher.js:135-237 | Every listed pattern names four distinct bucket positions and is either balanced (eleven patterns) or a three-of-one fallback (four patterns). |
| Patterns.RealizeShape | src/utils/queueMatcher.js:136-199 | A pattern whose guard holds yields a match of four queue players with known gender and category. A balanced pattern gives two teams with equal gender and category signatures. A fallback pattern gives the three-of-one shape. |
| Patterns.ApplicablePermutation | src/utils/queueMatcher.js:112-124 | Whether a pattern's guard holds depends only on which players are queued, not on their order, so the tie shuffle never changes which patterns fit. |
| Patterns.RealizeDistinct | src/utils/queueMatcher.js:127-133 | With unique ids, the four players of a realized pattern are four different records. |
| Patterns.RealizeLeastPlayedFirst | src/utils/queueMatcher.js:99-101 | On a games-ascending queue, a player a pattern takes from a bucket has played no more games than any player of that bucket it leaves behind. |
| Partners.PairGenderSignature | src/utils/queueMatcher.js:41-46 | A pair is MM iff both are male, FF iff both are female, and MF iff their genders differ. |
| Partners.PairCategorySignature | src/utils/queueMatcher.js:48-53 | A pair is BB iff both are beginners, II iff both are intermediate, and BI iff their categories differ. |
| Partners.RandomizeBalanced | src/utils/queueMatcher.js:58-86 | Re-pairing a balanced match gives a balanced match of the same four players with the same gender and category signatures. A mixed-gender, mixed-category match comes back unchanged. |
| Partners.RandomizeSlots | src/utils/queueMatcher.js:61-79 | In a re-paired mixed-gender match each team is a man then a woman. In a re-paired same-gender, mixed-category match each team is a beginner then an intermediate. |
| Partners.FallbackReadsPastEnd | src/utils/queueMatcher.js:62-71 | On a three-of-one fallback match the source indexes past the end of the beginners or intermediates list, so a team would hold `undefined`. |
| Partners.RandomizePartners | src/utils/queueMatcher.js:58-86 | The corrected re-pairing keeps a balanced match balanced with the same players and signatures, and leaves a fallback match and a mixed-gender, mixed-category match as they were. |
| QueueMatcher.BestIndex | src/utils/queueMatcher.js:201-207 | The chosen candidate has a score no worse than any other under the (total, max) order. Every earlier candidate is strictly worse, which is what a stable ascending sort puts first. |
| QueueMatcher.BestIndexUnique | src/utils/queueMatcher.js:201-207 | Exactly one index is a best score with every earlier score strictly worse, so the choice is determined. |
| QueueMatcher.TryCreateMatch | src/utils/queueMatcher.js:110-252 | A match is found iff a balanced pattern fits, or the fallback is allowed and a fallback pattern fits. A found match shrinks the queue and leaves only queue players. Otherwise the returned queue is a games-ascending permutation of the input. |
| QueueMatcher.TryCreateMatchLegal | src/utils/queueMatcher.js:201-248 | Every returned match is balanced, or is a fallback returned only with the option set and no balanced pattern fitting. |
| QueueMatcher.TryCreateMatchPicksBest | src/utils/queueMatcher.js:201-247 | The returned match scores no worse than any fitting pattern of the list in use, and strictly better than every earlier fitting pattern. |
| QueueMatcher.TryCreateMatchConserves | src/utils/queueMatcher.js:127-133 | With unique ids, the queue is exactly the match's four players plus the remaining queue, which keeps unique ids. |
| QueueMatcher.TryCreateMatchLeastPlayedFirst | src/utils/queueMatcher.js:99-104 | A matched player has played no more games than any remaining player of the same gender and category. |
| QueueMatcher.RandomizeKeepsScore | src/utils/queueMatcher.js:92-97 | Re-pairing partners does not change a match's (total, max) score. |
| QueueMatcher.WithoutIds | src/utils/queueMatcher.js:131 | The filtered queue holds exactly the queue players whose id is not among the taken ids. |
| QueueRounds.CreateMatchesFromQueue | src/utils/queueMatcher.js:259-271 | Every match made is balanced. The queue left admits no balanced match. Some match is made iff the input admits one. The queue left holds only input players. |
| QueueRounds.CreateMatchesConserves | src/utils/queueMatcher.js:259-271 | With unique ids, the input is exactly the matches' players plus the queue left: four per match, none lost or doubled. |
| QueueRounds.GetAvailableCourts | src/utils/queueMatcher.js:279-282 | An id is returned iff it belongs to a court and no match uses it. The ids come in court order. |
| QueueRounds.CanCreateMatch | src/utils/queueMatcher.js:293-300 | True iff some court is free and the queue fits a balanced or a fallback pattern, whatever the draws. |
| App.RunMatchingOn | src/App.jsx:10-18 | New matches get consecutive ids from the counter and the counter advances past them. All are balanced. The queue left admits no balanced match and is unchanged when nothing was made. |
| App.FindMatch | src/App.jsx:44 | The match returned is the first in the list with the requested id. None is returned iff no match has that id. |
| App.InitInv | src/App.jsx:20 | The initial state satisfies the reducer invariant. |
| App.UnknownOrMissingUnchanged | src/App.jsx:45 | An unknown action, or COMPLETE_MATCH for an id no match has, returns the state unchanged. |
| App.AddPlayerConserves | src/App.jsx:24-37 | Old matches stay first and in order. The old queue plus the new player equals the new queue plus the new matches' players. New matches are numbered upwards from the counter. |
| App.AddPlayerRematches | src/App.jsx:24-37 | After ADD_PLAYER the queue admits no balanced match. A match was made iff the queue with the new player admitted one. |
| App.AddPlayerInv | src/App.jsx:24-37 | ADD_PLAYER adds exactly the new player to the state's players and keeps the invariant. |
| App.RemovePlayerEffect | src/App.jsx:38-42 | REMOVE_PLAYER drops exactly the queue entries with that id and keeps the others in order. Matches and counters are untouched. |
| App.RemovePlayerInv | src/App.jsx:38-42 | REMOVE_PLAYER only removes players and keeps the invariant. |
| App.CompleteMatchConserves | src/App.jsx:43-53 | Exactly one match is dropped, and the others stay first and in order. The finished match's players plus the old queue equal the new queue plus the new matches' players. |
| App.CompleteMatchKeepsOthers | src/App.jsx:43-53 | The kept matches are exactly the old matches with another id. The queue left admits no balanced match. |
| App.CompleteMatchInv | src/App.jsx:43-53 | COMPLETE_MATCH keeps exactly the same players in the state and keeps the invariant. |
| App.ReducePreservesInv | src/App.jsx:22-57 | Every action, in the corrected reducer and in the reducer as written, keeps the invariant. |
| App.PlayersNeverModified | src/App.jsx:22-57 | Every player record after an action was already in the state or is the player ADD_PLAYER just created. |
| App.InvDisjoint | src/App.jsx:22-57 | Under the invariant no player id is both queued and on court, and no two matches share a player id. |
| App.ReachableInv | src/App.jsx:20-57 | Every state reached from the initial state by any sequence of actions satisfies the invariant. |
| App.GenderlessNoMatch | src/utils/queueMatcher.js:113-124 | A queue of players without a gender fits no balanced and no fallback pattern. |
| App.AsWrittenNeverMatches | src/App.jsx:25-30 | With players created as the source creates them, no sequence of actions from the initial state ever puts a match on court. |
| App.FourMaleBeginners | src/App.jsx:24-37 | When the new player keeps their gender, adding four or more male beginners from the initial state makes a match. The reducer as written makes none. |
| ManualMatchMaker.ToggleKeepsValid | src/components/ManualMatchMaker.jsx:31-55 | A toggle keeps each side at most two ids, with no id twice and no id on both sides. |
| ManualMatchMaker.ToggleRemoves | src/components/ManualMatchMaker.jsx:35-40 | Toggling an id a side holds removes it from that side and keeps the side's other ids in order. The other side is unchanged. |
| ManualMatchMaker.ToggleBlocked | src/components/ManualMatchMaker.jsx:41-47 | Toggling an id the other side holds, or an id into a full side, changes nothing. |
| ManualMatchMaker.ToggleAdds | src/components/ManualMatchMaker.jsx:49-53 | Otherwise the id is appended to the side and the other side is unchanged. |
| ManualMatchMaker.ToggleTwice | src/components/ManualMatchMaker.jsx:31-55 | Adding an id and toggling it again on the same side restores the selection. |
| ManualMatchMaker.ToggleMatchesButton | src/components/ManualMatchMaker.jsx:106-115 | On a valid selection a toggle leaves the selection unchanged iff that side's button is disabled. |
| ManualMatchMaker.WaitingPlayersSplit | src/components/ManualMatchMaker.jsx:21-24 | A player waits iff their id is not playing. Waiting players keep their order, and the waiting and playing players together make up the list. |
| ManualMatchMaker.CourtNumbers | src/components/ManualMatchMaker.jsx:28 | The list is 1, 2, ... up to the count rounded down, in order, and empty for a count below 1. A fractional count is accepted. |
| ManualMatchMaker.AvailableCourtsExact | src/components/ManualMatchMaker.jsx:26-29 | A court number is offered iff it is between 1 and the court count and no match uses it. The numbers are strictly ascending. |
| ManualMatchMaker.HandleCreate | src/components/ManualMatchMaker.jsx:57-62 | A create request is sent only with two players a side and a non-zero court, and it carries the selection and the court. |
| ManualMatchMaker.CanCreateSends | src/components/ManualMatchMaker.jsx:57-64 | When the Create button is enabled, the request is sent and its court is a free court within the count. |
| MatchList.MatchByCourtId | src/components/MatchList.jsx:19 | The map's keys are exactly the courts in use, and each entry is a match on that court. |
| MatchList.MatchByCourtIdLast | src/components/MatchList.jsx:19 | For a court used more than once, the map holds the last match on it in list order. |
| MatchList.MatchOn | src/components/MatchList.jsx:24 | No match is shown iff no match is on the court. A shown match is on that court. |
| MatchList.ShownMatch | src/components/MatchList.jsx:24 | A card shows the last listed match on its court, or nothing when the court is free. |
| MatchList.CourtViews | src/components/MatchList.jsx:23-45 | One card per court, in court order. |
| MatchList.CanRemoveCourtIff | src/components/MatchList.jsx:26 | A court can be removed iff there is more than one court and no match is on it. |
| MatchList.CanCreateNextMatchIff | src/components/MatchList.jsx:25 | A match can be created on a court iff no match is on it, its id is listed as available, and creation is allowed. |
| MatchList.CanCreateWithComputedAvailability | src/components/MatchList.jsx:25 | With the available ids from `getAvailableCourts`, a listed court allows creation iff creation is allowed and the court is free. |
| MatchList.CallbacksNeedMatch | src/components/MatchList.jsx:39-41 | The complete callback is offered iff a match is shown. Cancel and edit also need the parent's handler. Each reports the shown match's id. |
| MatchList.BusyCourtLocked | src/components/MatchList.jsx:25-26 | A court with a match can neither take a new match nor be removed. |
| MatchList.LastCourtKept | src/components/MatchList.jsx:26 | The only court is never removable. |
| CourtConfig.JsMin | src/components/CourtConfig.jsx:37 | `Math.min` is NaN iff an argument is, and otherwise returns the smaller argument. |
| CourtConfig.JsMax | src/components/CourtConfig.jsx:37 | `Math.max` is NaN iff an argument is, and otherwise returns the larger argument. |
| CourtConfig.Increment | src/components/CourtConfig.jsx:2-6 | Nothing is emitted iff the control is disabled. Otherwise the smaller of 10 and count + 1 is emitted. |
| CourtConfig.Decrement | src/components/CourtConfig.jsx:8-12 | Nothing is emitted iff the control is disabled. Otherwise the larger of 1 and count - 1 is emitted. |
| CourtConfig.TypedInput | src/components/CourtConfig.jsx:27-40 | Typed input emits nothing iff the text is empty or does not parse as a number. |
| CourtConfig.TypedInputInRange | src/components/CourtConfig.jsx:33-38 | Every count emitted from typed input is a finite number between 1 and 10. |
| CourtConfig.TypedInputClamps | src/components/CourtConfig.jsx:37 | A typed value in [1, 10] is emitted unchanged. A value below 1 is emitted as 1, and a value above 10 as 10. |
| CourtConfig.TypedInputInfinities | src/components/CourtConfig.jsx:37 | Infinity is clamped to 10 and minus infinity to 1. |
| CourtConfig.BlurAgreesWithChange | src/components/CourtConfig.jsx:41-49 | Blur keeps the typed text iff typing it emitted that very value, so the two handlers agree on which inputs are valid. |
| CourtConfig.IncrementEnabled | src/components/CourtConfig.jsx:56-66 | An enabled Increment raises the count by one, capped at 10, and always raises it. |
| CourtConfig.DecrementEnabled | src/components/CourtConfig.jsx:68-78 | An enabled Decrement lowers the count by one, floored at 1, and always lowers it. |
| CourtConfig.BoundsAreFixed | src/components/CourtConfig.jsx:2-12 | Increment at 10 and Decrement at 1 are disabled, and their handlers would re-emit the same count anyway. |
| CourtConfig.StepsUndo | src/components/CourtConfig.jsx:2-12 | Inside the range, Increment then Decrement, or Decrement then Increment, returns to the starting count. |
| CourtConfig.StepsStayInRange | src/components/CourtConfig.jsx:2-12 | From a count in [1, 10], either button emits a count in [1, 10]. |
| EndQueueSummary.MergeIsMerged | src/components/EndQueueSummary.jsx:32-38 | The merge holds one record per id of the combined lists, each taken from them, with the most games of its id. It is the first record of its id with that many games. |
| EndQueueSummary.PlayerCountIsDistinctIds | src/components/EndQueueSummary.jsx:52 | The player count is the number of distinct ids among current and removed players. |
| EndQueueSummary.MergeDistinct | src/components/EndQueueSummary.jsx:32-47 | When no id repeats, the merge is the combined list itself, so the count is its length and the total is its games sum. |
| EndQueueSummary.SortByGames | src/components/EndQueueSummary.jsx:40-45 | The sorted list is a permutation of the merged players, ordered by games played descending. |
| EndQueueSummary.SortedKeepsTotals | src/components/EndQueueSummary.jsx:40-52 | The sorted list has as many entries as the player count and the same games total. |
| EndQueueSummary.ParseNatToString | src/components/EndQueueSummary.jsx:73 | Reading back the decimal digits of a whole number gives the number. |
| EndQueueSummary.QuarterParts | src/components/EndQueueSummary.jsx:71-72 | The whole part and the remainder recompose the quarter count, and the remainder is below 4. |
| EndQueueSummary.FormatShapes | src/components/EndQueueSummary.jsx:70-75 | Zero prints as "0". Whole shuttles print as digits, less than one shuttle as "r/4", and the rest as "w r/4". |
| EndQueueSummary.FormatRoundTrip | src/components/EndQueueSummary.jsx:67-76 | Parsing the formatted text gives back the quarter count. |
| EndQueueSummary.FormatInjective | src/components/EndQueueSummary.jsx:67-76 | Two quarter counts that format the same are equal. |

## Left out

- Rendering, React hooks, dialogs, CSS and the components that only present data are not modelled.
- `Math.random()` is replaced by the explicit draw stream `Shuffling.Rng`. `Date.now()` is the parameter `App.Env.now`. The model takes one clock reading per action: the new player's `addedAt` and the `createdAt` of every match made by the same action share it, where the source reads the clock separately for each.
- Ids are modelled as naturals. The source's string ids (`p-1`, `m-1`) are built from module-level counters, which the model keeps as the state fields `nextId` and `nextMatchId`. React's repeated reducer calls in development mode, which would advance those counters twice, are not modelled.
- A category or gender string other than the two known constants is modelled as absent (`None`). The source compares these fields only with `===` against the constants.
- The randomize-partners comment on `tryCreateMatch` mentions a condition that everyone has played at least one game. The code does not check it, and the model follows the code.
- EndQueueSummary.SortByGames: ties in games played are left in an unspecified order, because the `localeCompare` name tie-break is not modelled. The comparator's `b.gamesPlayed - a.gamesPlayed` is modelled on games with a missing count read as 0. The source would compute NaN there.
- EndQueueSummary.FormatShuttleFraction: takes the already-rounded quarter count as a natural number. `Math.round` of a floating-point share, and negative shares, are not modelled.
- `formatPhp`, `formatShuttleWhole`, the court share per player and the shuttle cost are floating-point money arithmetic and are not modelled.
- CourtConfig.TypedInput: takes `Number(text)` as a parameter, because JavaScript's string-to-number conversion is not modelled. Signed zero is not distinguished.
- The `courts` prop of the court counter and of the manual match dialog is modelled as a real number. That covers the fractional counts the typed-input clamp can emit. Infinite and NaN counts are not modelled there.
- QueueMatcher.TryCreateMatch: with both options set, re-pairs with the corrected `Partners.RandomizePartners`, so a fallback match keeps its pairing. The source would build a team holding `undefined` on that path (see Findings). The matcher's contracts, and everything built on it, therefore describe the corrected program on that path. No caller in the source passes `randomizePartners: true`, so the app never takes it.
- ManualMatchMaker.CanCreate: the selected court is modelled as an integer, where 0 is the falsy value. A `NaN` from `parseInt` is not modelled.
- Callbacks handed to court cards are modelled as the match id they would report.
- `Map` iteration order in `shuffleWithinTies` is replaced by iterating the distinct game counts in ascending order, which is the order the source sorts them into.

## Findings

| source | as written | input that shows it | evidently intended | confidence | as-written member | corrected member |
|---|---|---|---|---|---|---|
| src/utils/queueMatcher.js:62-71 | `randomizePartners` on a same-gender, mixed-category match takes `beginners[1]` and `intermediates[1]`. `tryCreateMatch` also calls it on a three-of-one fallback match (line 246), where one of those lists has a single element. | `tryCreateMatch` with both options set on a queue of three male beginners and one male intermediate (`Partners.FallbackExample`). One team then holds `undefined`. | A fallback match keeps its original pairing, as the code already does for a mixed-gender, mixed-category match. | not executed; the path needs a caller that passes both options | Partners.FallbackReadsPastEnd | Partners.RandomizePartners |
| src/App.jsx:25-30 | ADD_PLAYER builds a player with only `id`, `name`, `category` and `addedAt`, so the player has no gender. The matcher buckets only male and female players, so such players never fit a pattern. | Four ADD_PLAYER actions for male beginners from the initial state. No match is ever made. | The new player carries the gender the matcher's rules are written for. | not executed | App.AsWrittenNeverMatches | App.FourMaleBeginners |
