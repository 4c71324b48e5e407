# FiqhQA validator: the annotation and administration logic, in Dafny

This project models the logic of a web tool in which annotators check
question–answer items drawn from fatwa articles, and administrators assign
items, follow progress and review disagreements. It covers the annotation
form's state machine, seed state, validator and save status; the
administrators' annotator statistics, item table and disagreement table; the
progress header and timer an annotator sees; the pilot timing card; the two
task-assignment forms; and the shared helpers `combinations` and
`getInitials`. Each source file has one module:

| module | file |
|---|---|
| `Utils` | `utils.dfy` — `combinations` as a class holding the `result` array and the shared buffer that the recursive `backtrack` pushes to and pops, proved against a reference enumeration of index tuples; `getInitials` |
| `AnnotationInterface` | `annotation_interface.dfy` — `annotationReducer` as a function on the form state, the two cases that write into verdict objects shared with the previous state as methods on a `VerdictObject` class, `getInitialState`, `validateForm` (loops with early returns, proved against a staged specification), and the status `handleAction` saves with |
| `AnnotatorsView` | `annotators_view.dfy` — `calculateAnnotatorStats`: the grouping, the revision, count-difference and timing reducers as loops proved against sums and counts, and the sorted rows |
| `DataView` | `data_view.dfy` — the item status map (a loop filling a map), topics, filtering, pagination, and a class holding the table's page, page size, filters and selection |
| `DisagreementTable` | `disagreement_table.dfy` — headers, cells, the rendered view and the page state |
| `TaskHeader` | `task_header.dfy` — the main and pilot progress counters and what the header shows |
| `Timer` | `timer.dfy` — `formatTime` and a reader for its output |
| `TimingStatsCard` | `timing_stats_card.dfy` — `formatDuration` as written and corrected |
| `TaskAssignmentCard` | `task_assignment_card.dfy` — the range/list form: schema, `fiqih` prefix, dispatch and reset |
| `AssignmentCard` | `assignment_card.dfy` — the start/end index form |

`Paging` (`paging.dfy`) holds the pagination arithmetic and `slice` that
the two tables share. `Text`, `Collections`, `Types` and `Wrappers` hold
the string, sequence, record and option helpers.

JavaScript's behaviour is spelled out where it matters:

- `%` truncates toward zero.
- `Math.round` rounds halves up.
- `slice` clamps and counts negative indices from the end.
- `new Map` keeps the last entry for a key.
- The default `sort` orders by code units.
- A query that is not issued yields no data.

Percentages and averages are exact rationals (`real`).

## Model

| member | source | states |
|---|---|---|
| Utils.IndexCombos | src/lib/utils.ts:24-34 | every tuple the search visits is `k` strictly increasing positions from `start` on |
| Utils.CombinationBuilder.constructor | src/lib/utils.ts:23 | a fresh call starts with an empty result and an empty buffer |
| Utils.CombinationBuilder.Backtrack | src/lib/utils.ts:24-34 | appends a copy of the buffer extended by each visited tuple, in search order, never changes earlier entries, and leaves the buffer as it found it |
| Utils.CombinationBuilder.VisitsDone | src/lib/utils.ts:25-27 | a full buffer is copied once |
| Utils.CombinationBuilder.VisitsStep | src/lib/utils.ts:29-33 | one loop turn visits the tuples that take element `i`, then those that skip it |
| Utils.LiftStep | src/lib/utils.ts:29-33 | the same split of the enumeration, stated on element sequences |
| Utils.Combinations | src/lib/utils.ts:22-37 | the result is the reference enumeration of combinations |
| Utils.CombinationShape | src/lib/utils.ts:25-31 | every combination has `size` elements taken at strictly increasing positions |
| Utils.IndexCombosCount | src/lib/utils.ts:22-37 | there are C(n, size) combinations |
| Utils.PairCount | src/lib/utils.ts:22-37 | for size 2 that is n(n-1)/2 |
| Utils.EdgeSizes | src/lib/utils.ts:25-29 | size 0 gives one empty combination; a size above the length gives none |
| Utils.IndexCombosLexOrdered | src/lib/utils.ts:29-33 | the combinations come out in strictly increasing lexicographic order of positions |
| Utils.IndexCombosDistinct | src/lib/utils.ts:22-37 | no choice of positions is listed twice |
| Utils.Initials | src/lib/utils.ts:8-14 | the result has at most two characters, and the empty name gives "" |
| Utils.InitialsOfOneWord | src/lib/utils.ts:11 | a single word gives its first two characters upper-cased |
| Utils.InitialsOfTwoWords | src/lib/utils.ts:12-13 | two words give the upper-cased first letter of each |
| Utils.FirstLettersOfWords | src/lib/utils.ts:12 | `map(n => n[0]).join('')` keeps exactly the first letters of the non-empty words, in order |
| Utils.InitialsOfWords | src/lib/utils.ts:10-13 | any name of two or more space-free words has as initials the upper-cased first letters of its first two non-empty words (or of its only one) |
| Utils.InitialsOfLeadingWords | src/lib/utils.ts:12-13 | with the first two words non-empty, the initials are their first letters whatever words follow |
| Utils.InitialsOfSpacedNames | src/lib/utils.ts:10-13 | "Ali bin Abu" gives "AB" and " Ali" gives "A" |
| AnnotationInterface.Get | src/components/annotator/annotation-interface.tsx:47 | reading a field gives a value of that field's type |
| AnnotationInterface.GetSet | src/components/annotator/annotation-interface.tsx:47 | setting a field changes that field and no other |
| AnnotationInterface.SetGet | src/components/annotator/annotation-interface.tsx:47 | setting a field to its own value changes nothing |
| AnnotationInterface.MergeVerdictLaws | src/components/annotator/annotation-interface.tsx:50 | an empty patch changes nothing; a patch's present fields win |
| AnnotationInterface.MarkPrimary | src/components/annotator/annotation-interface.tsx:64-70 | same length; verdict `j` is primary iff `j` is the index; all other fields kept |
| AnnotationInterface.ToggleId | src/components/annotator/annotation-interface.tsx:76-83 | a linked id is removed everywhere and an unlinked one appended |
| AnnotationInterface.ToggleTwice | src/components/annotator/annotation-interface.tsx:76-83 | toggling an unlinked id twice restores the list |
| AnnotationInterface.Unlink | src/components/annotator/annotation-interface.tsx:103-106 | same number of verdicts, and no id list holds the removed id |
| AnnotationInterface.UpdateFieldClearsReasons | src/components/annotator/annotation-interface.tsx:43-45 | clearing the revision flag also clears both reason fields |
| AnnotationInterface.UpdateFieldOnlyNamed | src/components/annotator/annotation-interface.tsx:47 | any other field update changes only the named field |
| AnnotationInterface.UpdateVerdictEffect | src/components/annotator/annotation-interface.tsx:48-52 | the patch is merged into the verdict at the index only; the length is kept |
| AnnotationInterface.UpdatePrimarySourceEffect | src/components/annotator/annotation-interface.tsx:89-93 | the patch is merged into one primary source; nothing else changes |
| AnnotationInterface.UpdateSecondarySourceEffect | src/components/annotator/annotation-interface.tsx:110-114 | the patch is merged into one secondary source; nothing else changes |
| AnnotationInterface.AddVerdictEffect | src/components/annotator/annotation-interface.tsx:53-54 | one blank, unflagged, unlinked verdict is appended, primary iff the list was empty |
| AnnotationInterface.SetPrimaryVerdictEffect | src/components/annotator/annotation-interface.tsx:64-70 | exactly the chosen verdict is primary; no other verdict field changes |
| AnnotationInterface.SetPrimaryVerdictShape | src/components/annotator/annotation-interface.tsx:64-70 | with an index in range, exactly one verdict is primary |
| AnnotationInterface.DeleteVerdictEffect | src/components/annotator/annotation-interface.tsx:55-62 | exactly the verdict at the index is removed, the rest keep their order, and the first becomes primary when none is |
| AnnotationInterface.DeleteVerdictShape | src/components/annotator/annotation-interface.tsx:55-61 | a non-empty result has a primary, and at most one stays at most one |
| AnnotationInterface.RemoveAtKeepsAtMostOne | src/components/annotator/annotation-interface.tsx:56 | removing a verdict cannot add a primary |
| AnnotationInterface.ToggleEffect | src/components/annotator/annotation-interface.tsx:72-85 | only the chosen verdict's id list changes, and it is toggled |
| AnnotationInterface.AddPrimarySourceEffect | src/components/annotator/annotation-interface.tsx:94-98 | appends one blank Hadits source with id `p_<now>` |
| AnnotationInterface.AddSecondarySourceEffect | src/components/annotator/annotation-interface.tsx:115-119 | appends one blank source with id `s_<now>` |
| AnnotationInterface.UnlinkEffect | src/components/annotator/annotation-interface.tsx:103-106 | every other id and every other verdict field is kept |
| AnnotationInterface.DeletePrimarySourceEffect | src/components/annotator/annotation-interface.tsx:99-108 | removes the source at the index, unlinks its id from every verdict, and leaves the secondary sources alone |
| AnnotationInterface.DeleteSecondarySourceEffect | src/components/annotator/annotation-interface.tsx:120-129 | removes the source at the index, unlinks its id from every verdict, and leaves the primary sources alone |
| AnnotationInterface.ReducePreservesPrimaryShape | src/components/annotator/annotation-interface.tsx:38-134 | every action except a wholesale replace, a primary-flag patch, or a primary choice out of range keeps at most one primary, and one whenever there are verdicts |
| AnnotationInterface.UpdateFieldKeepsVerdicts | src/components/annotator/annotation-interface.tsx:41-46 | updating any field but the verdicts leaves the verdicts unchanged |
| AnnotationInterface.AddVerdictShape | src/components/annotator/annotation-interface.tsx:53-54 | the appended verdict is primary exactly when the list was empty, so the primary shape is kept |
| AnnotationInterface.SameFlags | src/components/annotator/annotation-interface.tsx:48-52 | lists with the same primary flags have the same primary shape |
| AnnotationInterface.VerdictObject.constructor | src/components/annotator/annotation-interface.tsx:54 | a new verdict object holds the given value |
| AnnotationInterface.DeleteVerdictShared | src/components/annotator/annotation-interface.tsx:55-61 | the new array's values are those of the pure delete, and the repaired primary flag also shows in the previous state's array |
| AnnotationInterface.AnyPrimary | src/components/annotator/annotation-interface.tsx:58 | true iff some object in the array is primary |
| AnnotationInterface.ToggleShared | src/components/annotator/annotation-interface.tsx:72-85 | the new array holds the same objects, and the previous state shows the toggle too |
| AnnotationInterface.InitialVerdicts | src/components/annotator/annotation-interface.tsx:139-154 | one verdict per seed verdict |
| AnnotationInterface.InitialStateFields | src/components/annotator/annotation-interface.tsx:163-174 | the seeded form is an undecided draft holding the item's question |
| AnnotationInterface.InitialVerdictsFacts | src/components/annotator/annotation-interface.tsx:143-153 | a label is kept iff it is one of the seven options; context copied; no flags or links; primary as seeded, else iff first |
| AnnotationInterface.InitialVerdictsShape | src/components/annotator/annotation-interface.tsx:148 | with no seeded primary flags, the seeded verdicts have exactly one primary when non-empty |
| AnnotationInterface.InitialSourcesFacts | src/components/annotator/annotation-interface.tsx:156-161 | sources get ids `p_i`/`s_i`, text copied, flags cleared; a missing justification gives empty lists |
| AnnotationInterface.InitialSourceIdsDistinct | src/components/annotator/annotation-interface.tsx:158-159 | the seeded source ids are pairwise distinct |
| AnnotationInterface.PrefixedDecimalInjective | src/components/annotator/annotation-interface.tsx:158-159 | distinct indices give distinct ids |
| AnnotationInterface.FirstProblemNone | src/components/annotator/annotation-interface.tsx:316-341 | a scan reports nothing iff no element has a problem |
| AnnotationInterface.FirstProblemIsFirst | src/components/annotator/annotation-interface.tsx:316-341 | a reported problem belongs to an element, and every earlier element passes |
| AnnotationInterface.FirstErrorNoneIffComplete | src/components/annotator/annotation-interface.tsx:283-344 | the staged validator passes exactly the forms that meet every requirement |
| AnnotationInterface.FatwaGate | src/components/annotator/annotation-interface.tsx:284-291 | an undecided fatwa question fails; a non-fatwa article passes |
| AnnotationInterface.VerdictErrorIsFirst | src/components/annotator/annotation-interface.tsx:316-326 | a verdict error names the first failing verdict |
| AnnotationInterface.ValidateForm | src/components/annotator/annotation-interface.tsx:283-344 | returns pass iff no failure, the failure is the first in check order, and a toast is raised only when submitting |
| AnnotationInterface.ScanVerdicts | src/components/annotator/annotation-interface.tsx:316-326 | the verdict loop returns the first verdict's problem |
| AnnotationInterface.ScanPrimarySources | src/components/annotator/annotation-interface.tsx:328-334 | the primary-source loop returns the first source's problem |
| AnnotationInterface.ScanSecondarySources | src/components/annotator/annotation-interface.tsx:335-341 | the secondary-source loop returns the first source's problem |
| AnnotationInterface.FinalStatusChoice | src/components/annotator/annotation-interface.tsx:421-423 | a submission is non-fatwa iff the article is marked not a fatwa, else completed |
| AnnotationInterface.SavedStatusFacts | src/components/annotator/annotation-interface.tsx:419-429 | drafts are always saved; a submission is saved only when the form is complete |
| AnnotatorsView.CountRevisions | src/components/admin/annotators-view.tsx:135-157 | the loop counts flagged questions, flagged verdicts and flagged sources |
| AnnotatorsView.UnflaggedAddNothing | src/components/admin/annotators-view.tsx:138-154 | unflagged annotations or missing lists add nothing |
| AnnotatorsView.RevisionCountsBounded | src/components/admin/annotators-view.tsx:135-157 | the counts are non-negative and bounded by the questions, verdicts and sources |
| AnnotatorsView.ItemIndex | src/components/admin/annotators-view.tsx:120 | the index has exactly the items' ids, each mapped to an item with that id |
| AnnotatorsView.ItemIndexLastWins | src/components/admin/annotators-view.tsx:120 | of items sharing an id, the last one is kept |
| AnnotatorsView.CountDifferences | src/components/admin/annotators-view.tsx:161-177 | the loop sums positive differences into Added and negative ones into Removed |
| AnnotatorsView.GainsMinusLosses | src/components/admin/annotators-view.tsx:166-174 | summed gains minus summed losses equal the summed difference |
| AnnotatorsView.AddedMinusRemoved | src/components/admin/annotators-view.tsx:161-177 | Added − Removed is the summed count difference, and every counter is non-negative |
| AnnotatorsView.UnmatchedContributeNothing | src/components/admin/annotators-view.tsx:162-163 | annotations without a matching item contribute nothing |
| AnnotatorsView.TimeTotals | src/components/admin/annotators-view.tsx:179-185 | the loop sums the seconds and counts the annotations with a truthy duration |
| AnnotatorsView.AverageBetween | src/components/admin/annotators-view.tsx:187 | a quotient of a total between count·lo and count·hi lies in [lo, hi] |
| AnnotatorsView.AverageWithinBounds | src/components/admin/annotators-view.tsx:179-187 | the average lies between the shortest and the longest timed duration |
| AnnotatorsView.PercentageFacts | src/components/admin/annotators-view.tsx:132-133 | 0 without a denominator, times the denominator gives 100·finished, at most 100 when finished ≤ denominator |
| AnnotatorsView.RowFor | src/components/admin/annotators-view.tsx:122-204 | the callback builds the specified row |
| AnnotatorsView.CalculateAnnotatorStats | src/components/admin/annotators-view.tsx:95-206 | returns the rows of the annotators, sorted by name |
| AnnotatorsView.StatsOf | src/components/admin/annotators-view.tsx:122-205 | one row per annotator, in the annotators' order, each the specified row of that annotator |
| AnnotatorsView.StatOf | src/components/admin/annotators-view.tsx:123-124 | looking up the grouped lists, with an empty list for a user without any, gives the user's own assignments and annotations, and so the specified row |
| AnnotatorsView.StatCounters | src/components/admin/annotators-view.tsx:126-159 | finished = completed + non-fatwa; the three statuses ≤ assigned; the percentage's denominator is the item count in pilot view and the assignments otherwise; outside pilot view it is in [0, 100]; total revisions is the sum of the three |
| AnnotatorsView.ThreeStatuses | src/components/admin/annotators-view.tsx:127-129 | the three status counts add up to at most the assignments |
| AnnotatorsView.IdleAnnotatorRow | src/components/admin/annotators-view.tsx:122-124 | an annotator with no assignments or annotations gets an all-zero row |
| AnnotatorsView.OneRowPerAnnotator | src/components/admin/annotators-view.tsx:122-205 | the rows are the annotators' rows, each once, reordered |
| AnnotatorsView.RowsSortedByName | src/components/admin/annotators-view.tsx:205 | rows are in name order when the order is a total preorder |
| DataView.StatusNamesDistinct | src/components/admin/data-view.tsx:83-92 | the three status names are distinct and none is "all" |
| DataView.UserIds | src/components/admin/data-view.tsx:82 | the assignees in assignment order |
| DataView.AllFinished | src/components/admin/data-view.tsx:86 | true iff every assignment is completed or non-fatwa |
| DataView.EntryFor | src/components/admin/data-view.tsx:81-93 | the entry is the classification and the assignees |
| DataView.ItemStatusMap | src/components/admin/data-view.tsx:70-96 | the loop builds the specified map |
| DataView.EntryOf | src/components/admin/data-view.tsx:80-92 | the entry of one item is its status and assignees computed from the item's own assignments |
| DataView.StatusMapEntries | src/components/admin/data-view.tsx:80-94 | keys are exactly the item ids; the last item with an id gives its entry |
| DataView.ClassifyCases | src/components/admin/data-view.tsx:83-92 | Pending iff no assignments; Completed iff some and all finished; Assigned iff one is open |
| DataView.Topics | src/components/admin/data-view.tsx:99 | one topic per item, in order |
| DataView.UniqueTopicsFacts | src/components/admin/data-view.tsx:98-101 | "all" first, then each item topic exactly once |
| DataView.FilteredItemsExact | src/components/admin/data-view.tsx:103-115 | exactly the matching items, with multiplicity, sorted when the order is a total preorder |
| Collections.SortByStable | src/components/admin/data-view.tsx:114 | the sort is stable: the items ranked level by the order come out in the order they went in |
| DataView.NoFilterKeepsAll | src/components/admin/data-view.tsx:105-113 | an empty search and "all" filters keep every item |
| DataView.Ids | src/components/admin/data-view.tsx:160 | the ids of the items, in order |
| DataView.SelectionFlags | src/components/admin/data-view.tsx:177-178 | the two flags exclude each other; one holds iff something is selected; selecting all ids sets "all" |
| DataView.ItemTable.constructor | src/components/admin/data-view.tsx:64-68 | page 1, five rows, empty search, both filters "all", nothing selected |
| DataView.ItemTable.SetFilters | src/components/admin/data-view.tsx:103-104 | a filter change sets the filters and returns to page 1 |
| DataView.ItemTable.GoToNextPage | src/components/admin/data-view.tsx:126-128 | the page becomes `min(page + 1, totalPages)`; nothing else changes |
| DataView.ItemTable.GoToPreviousPage | src/components/admin/data-view.tsx:130-132 | the page becomes `max(page - 1, 1)`; nothing else changes |
| DataView.ItemTable.ChangeRowsPerPage | src/components/admin/data-view.tsx:134-137 | sets the page size and returns to page 1 |
| DataView.ItemTable.SelectAll | src/components/admin/data-view.tsx:158-164 | `true` selects the filtered ids; anything else clears |
| DataView.ItemTable.RowSelect | src/components/admin/data-view.tsx:166-170 | checking appends the id; unchecking removes every occurrence |
| DataView.RowSelectEffect | src/components/admin/data-view.tsx:166-170 | checking adds one occurrence; unchecking removes all and keeps other ids' counts; check-then-uncheck leaves no trace |
| Paging.TotalPagesIsCeiling | src/components/admin/data-view.tsx:117 | the page count is the least number of pages holding the items; 0 iff no items |
| Paging.SliceIndex | src/components/admin/data-view.tsx:122 | a slice index is clamped into [0, len] |
| Paging.PageContents | src/components/admin/data-view.tsx:119-123 | a page holds at most `rows` items, those from `(page-1)·rows` on, and is full when the items reach |
| Paging.ItemOnItsPage | src/components/admin/data-view.tsx:117-123 | every item is on page `k / rows + 1`, within the page count, at position `k % rows` |
| Paging.PageBelowTotal | src/components/admin/data-view.tsx:117 | that page is within the page count |
| Paging.NavigationStaysInRange | src/components/admin/data-view.tsx:126-132 | from a page in [1, total] both steps stay in [1, total], moving by one unless at an end |
| DisagreementTable.ValueDisplayFaithful | src/components/admin/disagreement-table.tsx:30-38 | "Ya" iff true, "Tidak" iff false, a number reads back as itself, a string is unchanged, a badge iff boolean or number |
| DisagreementTable.Users | src/components/admin/disagreement-table.tsx:49 | the detail users in order |
| DisagreementTable.AllUsersMembers | src/components/admin/disagreement-table.tsx:49 | a name is listed iff some detail names it |
| DisagreementTable.StrLeIsTotalPreorder | src/components/admin/disagreement-table.tsx:49 | the default sort order is a total preorder |
| DisagreementTable.HeadersFacts | src/components/admin/disagreement-table.tsx:49 | the headers are exactly the users in some detail, each once, strictly ascending |
| DisagreementTable.DetailsMapKeys | src/components/admin/disagreement-table.tsx:79 | the map has a user iff some detail names them |
| DisagreementTable.DetailsMapLastWins | src/components/admin/disagreement-table.tsx:79 | the mapped value is the last detail's for that user |
| DisagreementTable.CellLookup | src/components/admin/disagreement-table.tsx:79-89 | "-" iff no detail names the header; otherwise the last such detail's value |
| DisagreementTable.RowOf | src/components/admin/disagreement-table.tsx:83-91 | one cell per header, each the lookup for that header |
| DisagreementTable.RenderShape | src/components/admin/disagreement-table.tsx:45-53 | missing or empty list iff the empty message; otherwise at most five rows from `(page-1)·5` with one cell per header |
| DisagreementTable.TableShape | src/components/admin/disagreement-table.tsx:45-53 | a non-empty list on a page from 1 on renders a table with the sorted headers and the page's rows |
| DisagreementTable.PageRows | src/components/admin/disagreement-table.tsx:51-53 | the rows of a page are at most five, those from `(page-1)·5` on, one cell per header |
| DisagreementTable.RowsOf | src/components/admin/disagreement-table.tsx:78-99 | one row per disagreement on the page, in order, each the row built for it |
| DisagreementTable.Pager.constructor | src/components/admin/disagreement-table.tsx:43 | the table starts on page 1 |
| DisagreementTable.Pager.GoToNextPage | src/components/admin/disagreement-table.tsx:55-57 | `min(page + 1, totalPages)`, and the page stays valid |
| DisagreementTable.Pager.GoToPreviousPage | src/components/admin/disagreement-table.tsx:59-61 | `max(page - 1, 1)`, and the page stays valid |
| TaskHeader.MainStatsFacts | src/components/annotator/annotation-task-header.tsx:47-55 | completed = finished assignments ≤ total = assignments; the percentage is 0 without assignments and in [0, 100] |
| TaskHeader.PilotStatsFacts | src/components/annotator/annotation-task-header.tsx:57-63 | completed = finished pilot assignments; total = pilot items; 0% without items |
| TaskHeader.PilotCompletedCanExceedTotal | src/components/annotator/annotation-task-header.tsx:59-62 | the pilot count can exceed the pilot total |
| TaskHeader.Query | src/components/annotator/annotation-task-header.tsx:25-45 | a query has data iff issued and loaded, and then exactly the matching records |
| TaskHeader.DisplayDefaults | src/components/annotator/annotation-task-header.tsx:65-70 | absent statistics show 0 of 0 at 0% |
| TaskHeader.MainHeaderAlwaysEmpty | src/components/annotator/annotation-task-header.tsx:25-29 | as written, every main-dataset item shows 0 of 0 at 0% |
| TaskHeader.MainHeaderShowsOwnAssignments | src/components/annotator/annotation-task-header.tsx:25-29 | with the guard corrected, a main item shows the user's finished and total main assignments |
| TaskHeader.PilotHeaderUnchanged | src/components/annotator/annotation-task-header.tsx:31-45 | the correction changes nothing on pilot items |
| TaskHeader.PilotHeaderShowsPilotProgress | src/components/annotator/annotation-task-header.tsx:31-63 | a pilot item shows the user's finished pilot assignments over all pilot items |
| Timer.Pad2Facts | src/components/annotator/timer.tsx:12-14 | a padded field is digits, at least two, exactly two below 100, and reads back as the number |
| Timer.Pad2ReadsBack | src/components/annotator/timer.tsx:12-14 | a padded field reads back as its number |
| Timer.FormatTimeFields | src/components/annotator/timer.tsx:11-15 | three fields; minutes and seconds two digits and below 60; hours never cut, three digits from 100 hours |
| Timer.FormatTimeRoundTrip | src/components/annotator/timer.tsx:11-15 | reading the output back gives the input seconds |
| Timer.TimeFields | src/components/annotator/timer.tsx:12-14 | h·3600 + m·60 + s equals the input |
| Timer.FormatTimeZero | src/components/annotator/timer.tsx:11-15 | 0 seconds is "00:00:00" |
| TimingStatsCard.FormatDurationAgreesOnWhole | src/components/admin/TimingStatsCard.tsx:14-22 | on whole seconds the function as written equals the corrected one |
| TimingStatsCard.FormatDurationShowsSixtySeconds | src/components/admin/TimingStatsCard.tsx:16-18 | as written, 119.5 s shows "1m 60d"; corrected, "2m 0d" |
| TimingStatsCard.FormatWholeShape | src/components/admin/TimingStatsCard.tsx:14-22 | below a minute "<s>d"; below an hour "<m>m <s>d" with s < 60 and m·60 + s the input; else "<h>j <m>m" with m < 60, seconds dropped |
| TimingStatsCard.TimingItems | src/components/admin/TimingStatsCard.tsx:38-51 | the card as written: the average's figure is `formatDuration` as written on the unrounded average, the total's the whole-second form |
| TimingStatsCard.TimingItemsFixed | src/components/admin/TimingStatsCard.tsx:38-51 | the card with the corrected function: the average is rounded to whole seconds before it is split |
| TimingStatsCard.TotalShownAsWritten | src/components/admin/TimingStatsCard.tsx:38-51 | the two cards differ only in the average's figure, and are equal on a whole-second average |
| TimingStatsCard.CardShowsSixtySeconds | src/components/admin/TimingStatsCard.tsx:42 | an average of 119.5 s shows "1m 60d" on the card as written and "2m 0d" corrected |
| TaskAssignmentCard.ValidateCases | src/components/admin/task-assignment-card.tsx:38-60 | accepted iff an annotator is chosen and the type's field is filled; each error iff its condition, under its field |
| TaskAssignmentCard.WithPrefix | src/components/admin/task-assignment-card.tsx:93-94 | an ID is produced iff the number is filled |
| TaskAssignmentCard.WithPrefixRoundTrip | src/components/admin/task-assignment-card.tsx:93-94 | an ID starts with "fiqih" and stripping it gives the number back |
| TaskAssignmentCard.ProcessFaithful | src/components/admin/task-assignment-card.tsx:90-96 | annotator, type and list pass through; each ID is present iff filled and is the number behind the prefix |
| TaskAssignmentCard.WithPrefixInjective | src/components/admin/task-assignment-card.tsx:93-94 | distinct numbers give distinct IDs |
| TaskAssignmentCard.SubmitEffect | src/components/admin/task-assignment-card.tsx:87-111 | exactly the pressed button's callback gets the processed values; the reset keeps annotator and type and clears the three ID fields |
| AssignmentCard.ValidateAccepts | src/components/admin/assignment-card.tsx:35-49 | accepted iff start ≥ 1, an annotator is chosen, and a given end is a number ≥ 1 and ≥ start |
| AssignmentCard.EndBeforeStartReported | src/components/admin/assignment-card.tsx:40-48 | a numeric end ≥ 1 is reported before the start iff it is below it; a blank or missing end never is |
| AssignmentCard.ZeroEndSkipsRefinement | src/components/admin/assignment-card.tsx:38-44 | an end of 0 fails only its own bound |
| AssignmentCard.NotANumberSkipsRefinement | src/components/admin/assignment-card.tsx:35-49 | a non-numeric start stops the refinement |
| AssignmentCard.SubmitEffect | src/components/admin/assignment-card.tsx:73-82 | exactly the pressed button's callback gets the values; the reset form is rejected until filled again |

## Left out

- Firestore, authentication and saving are left out. This covers the queries, the batch writes in `saveAnnotation`, the assignment update and the sign-in hooks. The header's query results and loading flags are parameters. A query that is not issued yields no data.
- The AI verbatim-suggestion flow calls a language model, so it is left out.
- Navigation after a save is left out.
- React rendering is left out: the JSX, icons, badges' colours, skeletons and the `isSubmitting` button states.
- The clock is a parameter: `Date.now()` becomes `now` in the source ids. Pilot durations and the timer's elapsed seconds are inputs, and the `setInterval` is not modelled.
- Reduce: takes only the actions `Applicable` admits, so the following JavaScript behaviours are not modelled.
  - A verdict or source update at a missing index spreads `undefined` and writes the patch alone. At index `length` that appends a partial element. Beyond `length` it also leaves holes. A negative or fractional index sets a property outside the list, so the list is unchanged.
  - A toggle at a missing index throws.
  - A source delete at a missing index is excluded whenever there are verdicts, although JavaScript throws only when some verdict has ids to filter.
- AnnotationInterface.ToggleShared: shows a toggle applied to the previous state as well. It does not model React running a reducer twice in development mode.
- `localeCompare` (names, and item ids with numeric collation) is a parameter required to be a total preorder. Case mapping is ASCII only.
- Strings are sequences of Unicode scalar values, not UTF-16 code units. The default `sort` and `n[0]` in `getInitials` differ from JavaScript only for characters outside the Basic Multilingual Plane.
- Percentages and averages are exact rationals. Floating-point rounding and number formatting are not modelled.
- DisagreementTable.ValueDisplayFaithful: numbers are integers. Fractions, `NaN` and objects shown through `String(value)` are not modelled.
- AnnotatorsView.CalculateAnnotatorStats: grouping uses a map. The source groups into a plain object, so a user id that names an `Object.prototype` member, such as "constructor", finds that member: `acc["constructor"].push` throws. The model groups such ids like any other.
- DataView.ItemStatusMap: grouping uses a map as well. The source's plain object throws for an item `originalId` that names an `Object.prototype` member: `acc["constructor"].push` throws while grouping, and `assignmentsByOriginalId["toString"] || []` yields a function whose `.map` throws. The model classifies such items like any other.
- AssignmentCard.ValidateAccepts: takes the outcome of `Number()` on each index string as its input. It does not model the conversion itself, nor the library's wording for the default and type messages.
- DataView.ItemTable.SetFilters: the source's memo also returns to page 1 when the items or the status map change. Only filter changes are modelled.
- DataView.ItemTable.GoToNextPage: takes the page count as a parameter, as the handler reads it from the render.
- DisagreementTable.Pager.constructor: the list is fixed for the pager's lifetime. A new, shorter list passed in while on a later page is not modelled.
- The agreement computation and CSV export are not part of this model, because their code is not among the modelled files. Only the pairing helper `combinations` is.

## Findings

| source | as written | input that shows it | evidently intended | confidence | as-written member | corrected member |
|---|---|---|---|---|---|---|
| src/components/admin/TimingStatsCard.tsx:16-18 | `formatDuration` splits the unrounded average, then rounds the remainder, which can reach 60 | an average of 119.5 s (119 s and 120 s over two items) shows "1m 60d" | round to whole seconds first: "2m 0d" | not executed | TimingStatsCard.FormatDurationShowsSixtySeconds | TimingStatsCard.FormatWholeShape |
| src/components/annotator/annotation-task-header.tsx:26 | the main-assignments query returns `null` unless the item is a pilot item, and its result is shown only on main items | any main-dataset item with a signed-in user who has main assignments shows "0 / 0" | return `null` on pilot items (`isPilot`), so main items load the user's main assignments | not executed | TaskHeader.MainHeaderAlwaysEmpty | TaskHeader.MainHeaderShowsOwnAssignments |
