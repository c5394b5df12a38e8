# A verified model of the cse331 draft server and its input checks

The application runs round-robin drafts. A draft has a list of drafters,
a list of options and a number of rounds. Drafters take turns in their listed order,
each picking one undrafted option, until `rounds * drafters` picks have been made.
The project models three parts of it in Dafny:

- **The draft engine** (server/src/draft.ts).
  - `sequences.dfy` and `draft_model.dfy` hold the value model: the four fields of
    `simpleDraft` as a `State`, the turn and end-of-draft rules, one pick, and the
    documented representation invariant and abstraction function as `Valid`.
    Lemmas show that every allowed pick keeps the invariant.
  - `draft.dfy` holds the class `Draft`, whose fields `pickItem` updates in place.
    Each of its methods is proved against the value model. It also holds the
    `makeDraft` factory.
- **The request handlers** (server/src/routes.ts), in `routes.dfy`. This covers the
  `DRAFTS` registry, where an ID is a position. It also covers the order of the
  checks in `createDraft`, `findDraft`, `pickItem` and `getDraft`, and the status
  each handler ends with. Request fields arrive as `Param` values: a string, a
  number, an array, or anything else.
- **The client's input checks** (client/src/draft_creator.tsx), in
  `draft_creator.dfy`. This covers the line splitting, the six checks of
  `buildDraft`, and `noDuplicates`.

Where the documentation and the code disagree, the model follows the code, with one exception: `DraftEngine.Draft.PickItem` requires the item to be undrafted, as the documented contract of `pickItem` demands. The code's own behaviour for an absent item is modelled on values by `DraftModel.PickAsWritten` (see Findings and "## Left out"). The other disagreements:

- `findDraft` rejects `ID > DRAFTS.length` rather than `>=` (server/src/routes.ts:206).
  So the ID equal to the registry length passes the check. The lookup then finds
  nothing, and the handler returns without any status. `Routes.ResolveId` models
  this as `Fail(NoStatus)`.
- The invariant line at server/src/draft.ts:77 bounds the index by `0 < i < n`.
  The model states the clause for every position of `draftedItems`, which is what
  the code maintains.
- The code never checks `rounds > 0`, although the invariant claims it
  (server/src/draft.ts:75). `Valid` therefore leaves that clause out.
  `DraftModel.NonPositiveRounds` shows what happens instead.
- The code never checks that names are distinct, so distinctness is not part of
  `Valid`. `DraftModel.ValidDisjoint` shows that distinct options stay distinct.
- The engine's guard against an absent item compares `indexOf` with `undefined`
  (server/src/draft.ts:126), which never holds. See Findings.
- `makeDraft` raises the error for an empty drafter list with the message meant for
  empty options (server/src/draft.ts:156). The model keeps the two cases apart as
  `NoOptions` and `NoDrafters`.

## Model

| member | source | states |
|---|---|---|
| Sequences.IndexOf | server/src/draft.ts:125 | `indexOf` returns -1 exactly when the item is absent. Otherwise it returns a position holding the item, with no earlier occurrence. |
| Sequences.SpliceOne | server/src/draft.ts:133 | `splice(i, 1)` removes position i when it is in range. With -1 it removes the last element. |
| Sequences.Remove | server/src/draft.ts:130-134 | This is the reference removal of the first occurrence. An absent item leaves the list unchanged; a present one shortens it by one. |
| Sequences.RemovePermutes | server/src/draft.ts:66-69 | Removing takes away exactly one copy of the item as a multiset, and nothing else. |
| Sequences.RemoveAtIndexOf | server/src/draft.ts:125-133 | The reference removal equals cutting out the position `indexOf` finds, so the other options keep their relative order. |
| Sequences.DistinctIffElementCount | client/src/draft_creator.tsx:108-110 | A list has no duplicates exactly when its set of values is as large as the list. |
| Sequences.DistinctPermutation | server/src/draft.ts:79-83 | A rearrangement of a duplicate-free list is duplicate-free. |
| Sequences.DistinctSplit | server/src/draft.ts:79-83 | In a duplicate-free concatenation, both halves are duplicate-free and share no value. |
| DraftModel.AllOptions | server/src/draft.ts:66-69 | The abstraction function: all the draft's options, the undrafted ones followed by the drafted item names. As a multiset it is exactly those two lists together. |
| DraftModel.IsOver | server/src/draft.ts:120 | The end-of-draft test: the pick count equals `rounds * n`. It has no contract of its own; `DraftModel.NonPositiveRounds`, `DraftModel.FinishedTurnIsFirst`, `DraftModel.OverExactlyAfterRoundsTimesN` and `DraftEngine.Draft.IsOver` state what it means. |
| DraftModel.Valid | server/src/draft.ts:65-91 | The representation invariant and abstraction function, minus the two clauses the code never enforces (positive rounds, distinct names; see above). It has no contract of its own; `DraftModel.ValidCounts`, `DraftModel.ValidDisjoint`, `DraftModel.NotOverHasOptions` and `DraftModel.PickPreservesValid` state what it gives and that every allowed pick keeps it. |
| DraftModel.Pick | server/src/draft.ts:121-135 | The documented pick of an undrafted item: drafters and rounds stay, one option leaves, and one record `{item, old count + 1, turn before the pick}` is appended. |
| DraftModel.PickAsWritten | server/src/draft.ts:125-134 | The pick as the code is written, for any item: drafters and rounds stay, one option leaves whenever any is left (the last one when the item is absent), and a record for the named item is appended. |
| DraftModel.MakeDraftItem | server/src/draft.ts:59-61 | The record holds exactly the given item, index and drafter. |
| DraftModel.Items | server/src/draft.ts:66-69 | The item names of the records, one per record, in pick order. |
| DraftModel.Turn | server/src/draft.ts:116 | The turn is always one of the drafters. |
| DraftModel.CheckDraftArgs | server/src/draft.ts:150-157 | `makeDraft` throws exactly when `rounds*n > m`, else when `m == 0`, else when `n == 0`, in that order. Each case is stated as an if-and-only-if. |
| DraftModel.InitialValid | server/src/draft.ts:109-114 | A fresh draft satisfies the invariant and holds the given options. Its turn is `drafters[0]`, and it is over at once only when rounds is 0. |
| DraftModel.ValidCounts | server/src/draft.ts:71 | Under the invariant, undrafted plus drafted items always number m. |
| DraftModel.ItemsAppend | server/src/draft.ts:134 | Appending a record appends its item name. |
| DraftModel.PickPreservesValid | server/src/draft.ts:71-77 | A pick on an unfinished draft with an undrafted item keeps every invariant clause. These are the abstraction function, the count bound, `index == i+1` and `drafter == drafters[i mod n]`. |
| DraftModel.PickKeepsAllOptions | server/src/draft.ts:66-69 | A pick only moves the item from the undrafted options to the drafted ones. |
| DraftModel.PickRecords | server/src/draft.ts:130-134 | A pick keeps all earlier records. It appends `{item, old count + 1, turn before the pick}`. |
| DraftModel.PickAsWrittenMatchesContract | server/src/draft.ts:125-134 | For an undrafted item, the code as written (indexOf, then splice, then push) does exactly the documented pick. |
| DraftModel.AbsentItemCorruptsDraft | server/src/draft.ts:125-133 | For an absent item, the code drops the last undrafted option and records the absent name. The invariant then fails. |
| DraftModel.ValidDisjoint | server/src/draft.ts:79-83 | If the original options were distinct, no item is both drafted and undrafted, and neither list repeats. |
| DraftModel.NotOverHasOptions | server/src/draft.ts:71-73 | A draft that is not over (with rounds >= 0) always has an option left. |
| DraftModel.NonPositiveRounds | server/src/draft.ts:150-159 | The unchecked rounds values: with 0 rounds the draft is over from the start, and with negative rounds it is never over. |
| DraftModel.FinishedTurnIsFirst | server/src/draft.ts:116-120 | When a draft is over, the turn is back at `drafters[0]`. |
| DraftModel.PickAllStep | server/src/draft.ts:121-135 | A run of picks that succeeds starts with an allowed pick. |
| DraftModel.PickAllKeepsValid | server/src/draft.ts:121-135 | Any run of allowed picks keeps the invariant and never changes `drafters` or `rounds`. |
| DraftModel.PickAllAppends | server/src/draft.ts:134 | A run of picks keeps the earlier records and appends one record per picked item, in order. |
| DraftModel.AppendsStep | server/src/draft.ts:134 | One record followed by the records of the rest is one record per item, in order. |
| DraftModel.PickAllRoundRobin | server/src/draft.ts:116 | The j-th pick of a run is recorded as `{item, position + 1, drafters[position mod n]}`, whatever the items are. |
| DraftModel.RoundRobinStep | server/src/draft.ts:116 | The record of the first item, followed by the records of the rest one position later, gives every record its round-robin drafter. |
| DraftModel.OverExactlyAfterRoundsTimesN | server/src/draft.ts:120-124 | With positive rounds, a fresh draft is over exactly after `rounds*n` picks. After that it refuses the next pick, whatever the item. |
| DraftModel.InOrderPicks | server/src/draft_test.ts:31-45 | Picking the options front to back k times (k at most `rounds*n`) always succeeds. It leaves exactly the options after the first k. |
| DraftScenarios.ForeignItemScenario | server/src/routes_test.ts:149-168 | Picking "Snickers" from the two-team draft of seven items makes "Item 7" disappear. "Snickers" is recorded for Team 1. |
| DraftScenarios.FirstRoundFollowsDrafters | server/src/draft_test.ts:17-65 | With three drafters, the first three picks are recorded for them in order, at positions 1 to 3. The rest of the options stay in order, and the turn returns to the first drafter. |
| DraftScenarios.SingleItemDraftEnds | server/src/draft_test.ts:96-100 | One drafter, one item and one round: the draft is not over, and is over after one pick. |
| DraftEngine.Draft.constructor | server/src/draft.ts:109-114 | The new draft holds copies of the given drafters, options and rounds, with no picks, and satisfies the invariant. |
| DraftEngine.Draft.GetTurn | server/src/draft.ts:116 | Returns `drafters[|draftedItems| mod n]`, always one of the drafters. |
| DraftEngine.Draft.GetUndraftedItems | server/src/draft.ts:117 | Returns the undrafted items. Together with the drafted ones, they are the original options as a multiset. |
| DraftEngine.Draft.GetDraftedItems | server/src/draft.ts:118 | Returns the records. Record i has index i+1 and drafter `drafters[i mod n]`. |
| DraftEngine.Draft.GetDrafters | server/src/draft.ts:119 | Returns the drafters, never an empty list. |
| DraftEngine.Draft.IsOver | server/src/draft.ts:120 | True exactly when `|draftedItems| == rounds*n`. When false (with rounds >= 0), an option remains. When true, the turn is `drafters[0]`. |
| DraftEngine.Draft.PickItem | server/src/draft.ts:121-135 | A finished draft throws and no field changes. Otherwise the new state is exactly one documented pick, and the invariant, drafters and rounds are kept. |
| DraftEngine.MakeDraft | server/src/draft.ts:150-160 | Throws exactly the error `CheckDraftArgs` names. Otherwise it returns a fresh draft that satisfies the invariant and holds the arguments as its initial state. |
| Routes.First | server/src/routes.ts:218-226 | A string gives itself. A number, anything else, or an empty array gives undefined. A defined result never comes from a non-array, non-string value. |
| Routes.FirstOfNested | server/src/routes.ts:218-220 | However deeply a value is nested as the head of arrays, and whatever follows it, `first` finds exactly that value. |
| Routes.FirstOfRepeatedField | server/src/routes.ts:215-220 | When a query field is repeated, its first value wins. |
| Routes.ResolveId | server/src/routes.ts:191-212 | A missing or NaN ID gives 400. A negative ID or one above the length gives 404. One equal to the length gives no status. Exactly the IDs in `0..length-1` find a draft. |
| Routes.StringsOfAllStrings | server/src/routes.ts:45-62 | When every element is a string, the collected list is the received list. |
| Routes.CollectStrings | server/src/routes.ts:45-62 | The `forEach`/`push` loop collects exactly the strings in order. It flags a bad request exactly when some element is not a string. |
| Routes.CheckCreateArgs | server/src/routes.ts:64-78 | `createDraft` answers 400 for `rounds*n > m`, else for `n == 0`, else for `m == 0`, in that order. Each case is stated as an if-and-only-if. |
| Routes.CreateAcceptsWhatMakeDraftAccepts | server/src/routes.ts:64-81 | The handler accepts exactly what `makeDraft` accepts, so its `makeDraft` call cannot throw. The two orders differ only when both lists are empty. Otherwise each refusal of the handler matches the same refusal of `makeDraft`. |
| Routes.CreateVerdict | server/src/routes.ts:27-78 | The type checks come first, in order. A draft is created exactly when all fields are well-typed, the elements are strings, and `makeDraft` would accept the sizes. |
| Routes.PickVerdict | server/src/routes.ts:98-131 | The checks run in this order: missing drafter 400, missing item 400, the lookup's status, wrong turn 403, over 409, item not undrafted 400. Success holds exactly when the engine's pick precondition holds. |
| Routes.FinishedDraftAnswers | server/src/routes.ts:116-123 | A finished draft answers 409 only to `drafters[0]` and 403 to everyone else. |
| Routes.Registry.constructor | server/src/routes.ts:4 | The registry starts empty. |
| Routes.Registry.FindDraft | server/src/routes.ts:191-213 | Returns `DRAFTS[ID]` exactly for the IDs `ResolveId` accepts. Otherwise it fails with the status `ResolveId` gives. |
| Routes.Registry.Target | server/src/routes.ts:191-213 | The state of the draft an ID names, or the lookup's status. |
| Routes.Registry.CreateDraft | server/src/routes.ts:27-85 | The status is `CreateVerdict`'s, and a refusal changes nothing. On success, the ID is the old length and exactly one fresh draft with the given contents is appended. No earlier draft changes. |
| Routes.Registry.PickItem | server/src/routes.ts:98-133 | The status is `PickVerdict` on the state before the request. Any refusal changes no draft. On success, the addressed draft makes exactly one documented pick, and no other draft changes. |
| Routes.Registry.GetDraft | server/src/routes.ts:144-150 | Reports exactly the addressed draft's records, undrafted items, turn and over flag, or the lookup's status. It changes nothing. |
| Routes.Registry.TestReset | server/src/routes.ts:157-159 | The registry becomes empty. |
| Routes.Registry.TestAddDraft | server/src/routes.ts:168-172 | Appends the draft and returns the old length. |
| Routes.Registry.TestGetDraft | server/src/routes.ts:178-180 | Gives `DRAFTS[ID]` for in-range IDs and undefined otherwise, including negative IDs. |
| Routes.CreateTwice | server/src/routes_test.ts:19-61 | Two successful creations, from two possibly different requests, get consecutive, hence distinct, IDs. Each ID finds a draft holding its own request's drafters, options and rounds, with no picks. |
| DraftCreator.Split | client/src/draft_creator.tsx:48-49 | `split('\n')` always gives at least one line, and no line contains a newline. |
| DraftCreator.JoinSplit | client/src/draft_creator.tsx:48-49 | Splitting loses nothing: joining the lines with newlines gives back the text. |
| DraftCreator.SplitLine | client/src/draft_creator.tsx:48-49 | A text without a newline splits to itself. |
| DraftCreator.SplitAfterLine | client/src/draft_creator.tsx:48-49 | A line followed by a newline is split off as the first line. |
| DraftCreator.SplitJoin | client/src/draft_creator.tsx:48-49 | Joining newline-free lines and splitting again gives the same lines. |
| DraftCreator.SplitIsEmptyLine | client/src/draft_creator.tsx:50 | The empty-field test (a single empty line) holds exactly for the empty text. |
| DraftCreator.NoDuplicates | client/src/draft_creator.tsx:108-110 | True exactly when the elements are pairwise distinct. |
| DraftCreator.BuildDraft | client/src/draft_creator.tsx:47-72 | The six checks run in order, each stated as an if-and-only-if on the raw inputs. `createCallback` gets exactly the split lines, rounds and drafter. |
| DraftCreator.AcceptedMeetsDraftPreconditions | client/src/draft_creator.tsx:47-70 | Accepted input meets every documented precondition of `makeDraft`: lists non-empty and duplicate-free, rounds > 0, `rounds*n <= m`. It passes the server's size checks and lists exactly the typed lines. |
| DraftCreator.TwoBlankLinesAreDuplicates | client/src/draft_creator.tsx:53-55 | Two blank lines are reported as duplicates, before the blank-line check is reached. |
| DraftCreator.NewlineAloneIsDuplicates | client/src/draft_creator.tsx:65-68 | An options field holding a single newline is reported as duplicates, not as blank lines. |

## Left out

- The HTTP layer is not modelled: Express, `Request`/`Response`, status messages, `res.end`, body parsing and server/src/index.ts. A handler's outcome is the `Status` it ends with.
- `parseInt` and NaN are not modelled. The handlers take the ID already parsed, as `Option<int>`, where `None` stands for missing or not a number (both answer 400). Rounds are whole numbers: fractional JavaScript numbers are not modelled. The client reads the Rounds field with `parseInt` (client/src/draft_creator.tsx:38), and a field holding no number gives NaN. NaN fails every comparison, so it passes both rounds checks of `buildDraft` (client/src/draft_creator.tsx:56, 59), and the server later refuses the request because rounds is not a number. `DraftCreator.BuildDraft` takes the rounds as an integer, so `DraftCreator.AcceptedMeetsDraftPreconditions`'s `rounds > 0` holds only for a Rounds field that holds a number.
- The `typeof` checks are modelled only as far as the `Param` shapes allow. Booleans, objects and `null` all fall under `Other`.
- The React components are not modelled: rendering, `setState`, `fetch`, `alert`, the change handlers, and client/src/app.tsx, draft_viewer.tsx and draft_joiner.tsx.
- The `Dummy` handler is not modelled: it is a greeting unrelated to drafts.
- Concurrency is not modelled: the code has none.
- DraftEngine.Draft.PickItem: requires the item to be undrafted whenever the draft is not over, as its documentation demands. The code's absent-item path is modelled on values only, by `PickAsWritten` and `AbsentItemCorruptsDraft`.
- The getters and the registry hold the lists themselves. The copies that `slice(0)` makes cannot be told apart from the originals in a model without aliasing of lists.

## Findings

| source | as written | input that shows it | evidently intended | confidence | as-written member | corrected member |
|---|---|---|---|---|---|---|
| server/src/draft.ts:125-133 | The guard tests `indexOf(item) === undefined`, but `indexOf` returns -1 for an absent item. The code then runs `splice(-1, 1)` and records the pick. | A fresh draft of options `Item 1`..`Item 7` picking `Snickers`: `Item 7` disappears and `Snickers` is recorded as drafted. | An absent item is refused, and only an undrafted item is ever removed and recorded. | not executed | DraftModel.AbsentItemCorruptsDraft | DraftModel.PickPreservesValid |
