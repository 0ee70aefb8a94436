# Cow catalogue core in Dafny

This project models the logic under the cow catalogue app's screens. It has four parts:

- **The catalogue repository** (`Storage.CowStore`). This is a read-modify-write layer over a store with two keys, one for the cow collection and one for the filters. Each stored value reads back as it was written.
- **The shared in-memory catalogue** (`CowContext.CowProvider`). It holds the `cows` and `filters` state and writes through to the repository. It also holds the three-part filter engine that decides which cows the list shows.
- **The derivation utilities** (`CowUtils`):
  - the latest event date;
  - the label shown for each event;
  - the daily weight gain between the first and the last weighing;
  - the sorted distinct pens;
  - the day buckets of the relative date label.
- **The add-cow form** (`AddCow`). This is the field-by-field validation, the building of the new cow record, and the submit guarded by the `isSubmitting` flag.

Supporting modules:

- `Seqs`: first index, find, map and an order-preserving filter, with a subsequence witness.
- `Text`: trimming with the full ECMAScript whitespace set, ASCII lower case, substring search and the code-unit string order used by `sort`.
- `Numerals`: decimal rendering of a weight inside an event label, with its parse round trip.

How the model represents the app's inputs:

- Timestamps are integer milliseconds, and weights are integer kilograms.
- Every store access that can fail takes a `readFails` or `writeFails` flag.
- The errors the repository swallows are modelled as their fallbacks: `[]`, no cow, or the default filters.
- The errors it rethrows come back as `Fail(StorageError)`.

The source's edge cases are kept as written:

- `addCow` after a failed read overwrites the collection with `[cow]`.
- When the uniqueness lookup's read fails, `getCowByEarTag` finds nothing and validation records no ear-tag error. If the add's own read then succeeds, the store gains a second cow with the same tag ignoring case.
- The provider's `updateCow` replaces the cow in memory even when the store had no such cow and wrote nothing.
- Memory gains a new cow at the front while the store gains it at the back. When the read succeeds and the two held the same multiset before, they are proved to hold the same multiset after. After a failed read the store holds only the new cow, so they no longer agree.
- A `pen_move` event without a pen shows `undefined`.
- A date less than a day in the future is labelled `-1 days ago`.

## Model

| member | source | states |
|---|---|---|
| Seqs.FirstIndex | services/storage.ts:42 | `findIndex`: -1 exactly when no element matches; otherwise a matching index with no match before it |
| Seqs.Find | contexts/CowContext.tsx:79 | `find`: none exactly when no element matches; otherwise the element at the first matching index |
| Seqs.Map | contexts/CowContext.tsx:71 | `map`: same length, each element is the callback applied to the element at the same index |
| Seqs.Filter | contexts/CowContext.tsx:88-105 | `filter`: no longer than the input; every kept element occurs in the input and passes; every passing input element is kept |
| Seqs.FilterEmbedding | contexts/CowContext.tsx:88 | returns strictly increasing positions at which the filtered list occurs in the input, and every position of a passing element is among them, so each passing element is kept once, in order |
| Seqs.FilterIsSubsequence | contexts/CowContext.tsx:88 | a filtered list is a subsequence of its input, in the input's order |
| Seqs.FilterAppend | utils/cowUtils.ts:66-67 | filtering a concatenation is the concatenation of the filtered parts |
| Seqs.FilterKeepsAll | contexts/CowContext.tsx:87-106 | a filter that every element passes returns its input unchanged |
| Text.TrimStartSpec | app/add-cow.tsx:43 | the result is a suffix of the input, everything removed is whitespace, and the result does not start with whitespace |
| Text.TrimEndSpec | app/add-cow.tsx:43 | the result is a prefix of the input, everything removed is whitespace, and the result does not end with whitespace |
| Text.TrimEmpty | app/add-cow.tsx:43 | a trimmed string is empty exactly when every character of the input is whitespace |
| Text.TrimIdempotent | app/add-cow.tsx:90-92 | trimming a trimmed string changes nothing |
| Text.ToLower | services/storage.ts:56 | `toLowerCase`: same length, each character lower-cased at its position |
| Text.ToLowerIdempotent | contexts/CowContext.tsx:90 | lower-casing twice is lower-casing once |
| Text.ContainsSlice | contexts/CowContext.tsx:90 | `includes` holds exactly when the needle occurs at some position of the haystack |
| Text.StringLessIrreflexive | utils/cowUtils.ts:87 | the default `sort` order never puts a string before itself |
| Text.StringLessTransitive | utils/cowUtils.ts:87 | the default `sort` order is transitive |
| Text.StringLessTotal | utils/cowUtils.ts:87 | any two distinct strings are ordered one way or the other |
| Text.StringLessAsymmetric | utils/cowUtils.ts:87 | no two strings are each before the other |
| Numerals.NatToString | utils/cowUtils.ts:53 | a natural number renders as at least one digit, with a leading `0` only for zero |
| Numerals.IntToString | utils/cowUtils.ts:53 | an integer renders as at least one character; it starts with `-` exactly when negative, a `-` is followed by at least one digit, and every other character is a digit |
| Numerals.NatToStringRoundTrip | utils/cowUtils.ts:53 | reading a rendered natural number back gives the number |
| Numerals.IntToStringRoundTrip | utils/cowUtils.ts:53 | reading a rendered integer back gives the integer |
| Numerals.IntToStringInjective | utils/cowUtils.ts:53 | distinct weights render as distinct texts |
| Storage.FindByEarTag | services/storage.ts:56 | none exactly when no cow's lower-cased tag equals the lower-cased query; otherwise the first such cow |
| Storage.FindByEarTagIgnoresCase | services/storage.ts:56 | two queries with the same lower case find the same cow |
| Storage.ReplaceFirstById | services/storage.ts:42-45 | same length; the first cow with the updated cow's id becomes it, and every other element is unchanged |
| Storage.CowStore.constructor | services/storage.ts:4-5 | a new store has neither key |
| Storage.CowStore.Listed | services/storage.ts:12 | an absent collection key reads as the empty collection, otherwise as the stored collection |
| Storage.CowStore.GetCows | services/storage.ts:9-17 | the stored collection; empty when the key is absent or the read fails |
| Storage.CowStore.SaveCows | services/storage.ts:19-26 | the collection key holds the new list, or is unchanged with the failure reported when the write fails |
| Storage.CowStore.AddCow | services/storage.ts:28-37 | the stored collection is the one read with the cow appended; a failed write changes nothing and is reported |
| Storage.CowStore.UpdateCow | services/storage.ts:39-51 | when the read collection has the id, its first match is replaced and written; otherwise nothing is written and no error is reported |
| Storage.CowStore.GetCowByEarTag | services/storage.ts:53-61 | the first stored cow whose tag matches ignoring case; none when there is no such cow or the read fails |
| Storage.CowStore.GetFilters | services/storage.ts:64-80 | the stored filters, or empty search, status `all` and empty pen when the key is absent or the read fails |
| Storage.CowStore.SaveFilters | services/storage.ts:82-88 | the filters key holds the new filters unless the write fails, and a failure is not reported |
| Storage.CowStore.ClearAll | services/storage.ts:91-98 | both keys are removed, or both are unchanged with the failure reported |
| Storage.SaveThenGetFilters | services/storage.ts:82-85 | filters saved with a successful write read back unchanged, and the collection key is untouched |
| Storage.ClearThenGet | services/storage.ts:91-93 | after a successful clear the collection reads as empty and the filters as the defaults |
| Storage.AddThenFind | services/storage.ts:30-32 | an added cow is the last stored cow; when no cow already stored has its tag ignoring case, it is found by its tag in any case |
| CowContext.Passes | contexts/CowContext.tsx:88-105 | the filter callback's three early returns accept a cow exactly when the search, status and pen tests all hold |
| CowContext.ApplyFilters | contexts/CowContext.tsx:87-106 | a cow is shown exactly when it passes the search, the status and the pen test |
| CowContext.ApplyFiltersIsSubsequence | contexts/CowContext.tsx:87-88 | the shown cows are a subsequence of the catalogue, in its order |
| CowContext.ApplyFiltersAppend | contexts/CowContext.tsx:88 | filtering a concatenation of two lists filters each list |
| CowContext.DefaultFiltersShowAll | contexts/CowContext.tsx:21-25 | the default filters show the whole catalogue unchanged |
| CowContext.StatusFilterShowsOnly | contexts/CowContext.tsx:95-97 | with a status chosen, every shown cow has that status |
| CowContext.ReplaceAllById | contexts/CowContext.tsx:71 | same length; every cow with the updated cow's id becomes it, and every other cow is unchanged |
| CowContext.ReplaceAllAgreesWithStore | contexts/CowContext.tsx:70-71 | with distinct ids, replacing every match in memory gives the same collection as replacing the first match in the store |
| CowContext.FindAfterReplaceAll | contexts/CowContext.tsx:71 | after an update, a lookup of the id finds the updated cow exactly when some cow had that id |
| CowContext.CowProvider.constructor | contexts/CowContext.tsx:20-25 | the provider starts with no cows and the default filters |
| CowContext.CowProvider.GetCowById | contexts/CowContext.tsx:78-80 | the first in-memory cow with the id; none exactly when no cow has it |
| CowContext.CowProvider.GetFilteredCows | contexts/CowContext.tsx:87-106 | an order-preserving subsequence of memory holding exactly the cows that pass the current filters |
| CowContext.CowProvider.AddCow | contexts/CowContext.tsx:58-66 | the store gains the cow at the back; only after that write succeeds does memory gain it at the front; a failed write leaves memory unchanged and is reported; when the read succeeds and memory and store held the same multiset before, they hold the same multiset after |
| CowContext.CowProvider.UpdateCow | contexts/CowContext.tsx:68-76 | the store update as in the repository; unless it throws, every in-memory cow with the id is replaced; a thrown failure leaves memory unchanged |
| CowContext.CowProvider.SetFilters | contexts/CowContext.tsx:82-85 | memory takes the new filters at once, and the store keeps them only if its write succeeds |
| CowContext.CowProvider.RefreshCows | contexts/CowContext.tsx:49-56 | memory takes the stored collection, so memory and store agree; a failed read leaves memory empty |
| CowUtils.ElapsedDays | utils/cowUtils.ts:6-7 | the floor of the elapsed time in whole days |
| CowUtils.FormatDate | utils/cowUtils.ts:6-15 | `Today` exactly for less than a day elapsed, `Yesterday` exactly for one to two days, the absolute date exactly from seven days on |
| CowUtils.FormatDateDaysAgo | utils/cowUtils.ts:13-14 | any whole number of elapsed days below seven other than 0 and 1, in the past or the future, is labelled as that number followed by ` days ago` |
| CowUtils.FormatDateFuture | utils/cowUtils.ts:7-14 | a date up to a day in the future is labelled `-1 days ago` |
| CowUtils.LatestDate | utils/cowUtils.ts:41-45 | the date of some event, and no event is later |
| CowUtils.LastEventDate | utils/cowUtils.ts:35-46 | `createdAt` for a cow with no events; otherwise the date of some event with no later event |
| CowUtils.EventDescription | utils/cowUtils.ts:48-63 | a non-empty label; a `created` event shows `Cow added to catalog`; a weighing shows `Weight check` exactly when its weight is not truthy; a treatment or death shows its own description when that is non-empty, or its fixed fallback |
| CowUtils.EventDescriptionIgnoresStoredText | utils/cowUtils.ts:50-57 | `created` and `pen_move` labels ignore the stored description; `pen_move` reads `Moved from <from> to <to>`, with `undefined` in place of an absent pen |
| CowUtils.WeightLabelCarriesWeight | utils/cowUtils.ts:53 | a truthy weighing is labelled `Weight recorded: <w> kg`, and the weight can be read back from the label |
| CowUtils.WeightChecks | utils/cowUtils.ts:66-67 | exactly the `weight_check` events with a truthy weight: each kept event is one from the history, and every such event of the history is kept |
| CowUtils.InsertByDate | utils/cowUtils.ts:68 | inserting into a date-sorted list keeps it sorted and adds exactly the new event |
| CowUtils.SortedLeast | utils/cowUtils.ts:68 | no event of a date-sorted list is earlier than its head |
| CowUtils.SortByDate | utils/cowUtils.ts:68 | the result is sorted by date and is a permutation of the input |
| CowUtils.EarliestIndex | utils/cowUtils.ts:74 | every non-empty list has a first event of the earliest date |
| CowUtils.LatestIndex | utils/cowUtils.ts:75 | every non-empty list has a last event of the latest date |
| CowUtils.SortHeadIsEarliest | utils/cowUtils.ts:68-74 | with a stable sort, the first sorted event is the first event of the earliest date |
| CowUtils.SortLastIsLatest | utils/cowUtils.ts:68-75 | with a stable sort, the last sorted event is the last event of the latest date |
| CowUtils.DaysBetween | utils/cowUtils.ts:78-80 | the divisor is at least one day, the floor of the whole days between the dates when that is one or more, and one when fewer than two days |
| CowUtils.WeighingEnds | utils/cowUtils.ts:66-75 | no ends exactly when fewer than two truthy weighings exist |
| CowUtils.DailyWeightGain | utils/cowUtils.ts:65-83 | null exactly when fewer than two truthy weighings exist |
| CowUtils.WeighingEndsSpec | utils/cowUtils.ts:66-75 | the ends are the first earliest and the last latest truthy weighing |
| CowUtils.DailyWeightGainSpec | utils/cowUtils.ts:74-82 | the gain is the weight difference between the earliest and latest weighing over their clamped day count |
| CowUtils.AppendKeepsEnds | utils/cowUtils.ts:74-75 | a weighing strictly between the ends leaves the ends where they are |
| CowUtils.WeighingEndsIgnoreMiddle | utils/cowUtils.ts:66-75 | adding a weighing dated strictly between the ends does not move the ends |
| CowUtils.DailyWeightGainIgnoresMiddle | utils/cowUtils.ts:74-82 | intermediate weighings do not change the gain |
| CowUtils.DailyWeightGainExample | utils/cowUtils.ts:74-82 | 300 kg then 320 kg ten days later gives 2 kg per day |
| CowUtils.InsertPen | utils/cowUtils.ts:86-87 | inserting a pen into a strictly sorted list keeps it strictly sorted and adds exactly that pen |
| CowUtils.SortedDistinct | utils/cowUtils.ts:86-87 | strictly sorted, with exactly the input's elements |
| CowUtils.UniquePens | utils/cowUtils.ts:85-88 | strictly sorted (so free of duplicates), and its elements are exactly the cows' pens |
| CowUtils.SortedHeadLeast | utils/cowUtils.ts:87 | the head of a strictly sorted list is before every other element |
| CowUtils.SortedTailExcludesHead | utils/cowUtils.ts:87 | the head of a strictly sorted list does not recur |
| CowUtils.StrictlySortedUnique | utils/cowUtils.ts:86-87 | two strictly sorted lists with the same elements are equal, so the pen list is determined by the set of pens |
| CowUtils.UniquePensExample | utils/cowUtils.ts:85-88 | pens B1, A1, A1, C2 give A1, B1, C2 |
| AddCow.EarTagError | app/add-cow.tsx:42-51 | a tag blank once trimmed is required; otherwise a tag the case-insensitive lookup of the read collection finds already exists; no message otherwise |
| AddCow.TagTakenIsFound | app/add-cow.tsx:46-49 | a non-blank tag counts as taken exactly when `getCowByEarTag` finds a cow for the trimmed tag |
| AddCow.CollectErrors | app/add-cow.tsx:40-70 | the checks leave exactly the record `AddCow.FormErrors` of the collection the lookup read |
| AddCow.FormErrorsFields | app/add-cow.tsx:40-72 | in the record, each field has a key exactly when its check fails, with that check's message, and the record is empty exactly when every check passes |
| AddCow.ValidateForm | app/add-cow.tsx:39-73 | one message per failing field: a blank trimmed tag is required, a tag the case-insensitive lookup finds already exists, a missing sex and a blank trimmed pen are required, a non-empty weight that is not a positive number is rejected; the record is `AddCow.FormErrors` of the collection the lookup read; valid exactly when no message was recorded |
| AddCow.NoErrors | app/add-cow.tsx:72 | an error record with no keys is empty, and is empty exactly when no field has an error |
| AddCow.EnteredWeightTruthy | app/add-cow.tsx:86-107 | once validation passed, an entered weight is truthy and positive exactly when one was typed in |
| AddCow.BuildNewCow | app/add-cow.tsx:84-115 | the built cow has the trimmed tag and pen, the weight entered, a `created` event at `createdAt`, and a second `weight_check` event carrying the same weight and date exactly when that weight is truthy |
| AddCow.NewCowTrimmed | app/add-cow.tsx:90-92 | the new cow's tag and pen are already trimmed |
| AddCow.NewCowHistory | app/add-cow.tsx:95-115 | the new cow's first event is shown as `Cow added to catalog`, its last event date is its creation time, and it has no weight gain yet |
| AddCow.EventsDatedAt | app/add-cow.tsx:99-111 | a history whose events are all dated at creation last changed at creation |
| AddCow.AtMostOneWeighing | app/add-cow.tsx:95-115 | a `created` event followed by at most one other event holds at most one weighing |
| AddCow.SubmitValidForm | app/add-cow.tsx:83-126 | the built cow is added through the provider; the add's failure is caught and reported as failed with memory and store unchanged; on success memory gains the cow at the front and the store at the back, keeping tags unique ignoring case when no stored cow already has the trimmed tag |
| AddCow.AddKeepsEarTagsUnique | app/add-cow.tsx:46-50 | adding a cow whose tag the lookup did not find keeps tags unique ignoring case, at either end of the list |
| AddCow.AddCowScreen.constructor | app/add-cow.tsx:28-37 | the screen starts with no errors and not submitting |
| AddCow.AddCowScreen.HandleSubmit | app/add-cow.tsx:75-130 | ignored while submitting; otherwise the errors are validation's per-field record `AddCow.FormErrors`, an invalid form changes nothing, a valid one builds the cow and adds it through the provider; the flag is cleared afterwards; when the uniqueness lookup's read succeeds, tags that were unique ignoring case stay unique |

## Left out

- AsyncStorage, promises and async sequencing. Each store call is one atomic step whose failure is a flag passed in. `console.error` logging is dropped.
- JSON `stringify`/`parse`. A stored value reads back as it was written.
- `loadData`, the `isLoading` flag and `useCowContext`. They are React plumbing around calls that are modelled.
- Rendering, styles, `Alert` and router navigation on the add-cow screen. The screen's own navigation files are not part of this model.
- `generateId` and `new Date().toISOString()`. They are driven by `Math.random` and the clock, so the ids and the submit time are parameters.
- The sample data module is not part of this model.
- `formatDateTime` and the content of `formatDate`'s absolute-date branch. Both depend on locale formatting, so that branch returns the date itself.
- `CowUtils.DailyWeightGain`: does not model the rounding to two decimals by `toFixed(2)` and `parseFloat`. The gain is the exact quotient.
- `parseFloat` on the weight input. The form carries the parsed value, with None standing for NaN. Weights are whole kilograms, so fractional weights are not modelled.
- ISO date strings. Dates are integer milliseconds, so invalid dates are not modelled.
- `Text.ToLower`: does not model `toLowerCase` beyond ASCII letters, because full Unicode case mapping has no definition here.
- `Text.StringLess`: does not model UTF-16 code-unit order. It compares characters as Dafny characters, which agrees with `sort` on strings whose characters are all below U+10000.
- `CowUtils.UniquePens`: does not build a `Set` of pens and then sort it. It inserts each pen into a strictly sorted list, and `CowUtils.StrictlySortedUnique` shows the result is the only sorted list of those pens.
- `CowUtils.SortByDate`: is an insertion sort. Beyond sortedness and permutation, the model relies only on the fact that ties keep their input order (`CowUtils.SortHeadIsEarliest`, `CowUtils.SortLastIsLatest`). Engines guarantee this for `Array.prototype.sort`.
- `AddCow.EarTagError`: that no lookup is made for a blank tag is visible only in its body. Its contract states that a blank tag cannot be taken.
- `AddCow.AddCowScreen.HandleSubmit`: does not model a second submit arriving while the first awaits validation. Each submit runs to completion.
