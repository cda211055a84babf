# TalkBingo admin — the question catalogue's logic, in Dafny

TalkBingo admin is a web console for a catalogue of party-game questions.
There are three kinds: Truth ('T'), Balance ('B') and mini-game ('M'). Each
question carries a q_id such as `T25-00041` and a list of *code names*:
strings `<pair>-<relation>-<sub>-<level>`, such as `F-F-B-Ar-L1`, that say which
gender pair, relation, sub-relation and intimacy level the question
suits. This project models, and proves properties of:

- **the code taxonomy** (`Constants`): the four gender pairs, the relation
  registry (Friend, Family, Lover, with 4, 10 and 4 sub-relations) and the
  five levels;
- **code generation for filters** (`Codes`): the Cartesian product of pairs,
  relations, surviving sub-relations and levels that the list query matches
  against stored codes. It is an imperative method with nested loops,
  proved equal to a recursive specification. The specification's
  membership, length, duplicate-freedom and emptiness are then proved;
- **the question list query** (`Actions`): the clauses the list query adds
  (type, search, code overlap or the `IMPOSSIBLE` sentinel, sort, window).
  The module also covers the save payload and the row → question mapping
  with its defaults;
- **the next-ID rule** (`NextId`): the q_id `getNextQuestionId` derives
  from the latest stored one;
- **hide/select list state** (`HideSelect`, with the classes
  `QuestionListTable.Table` and `DashboardAnalytics.Panel`): toggling
  selection, hiding, unhiding, the two views, and the dashboard's drill-down
  fetch;
- **pagination** (`Pagination`): the page count, the five-button window with
  its clamps, the arrows, and the `page` parameter;
- **the filter toolbar** (`QuestionFilterToolbar.Toolbar`): reading the
  fields from the URL, writing them back set-or-delete, clearing, the
  active-filter count and the sub-relation options;
- **the CSV migration** (`Migrate`): CodeName splitting and cleaning,
  dropping incomplete records, and the rows a question loads back as.

Shared helpers are `Wrappers` (Option, JavaScript truthiness of optional
strings), `Text` (`split`, `join`, `trim`, decimal printing and `parseInt`)
and `Lists` (`filter`-style removal, `new Set` de-duplication, subsequences).
The database, the router, local storage and the clock are not modelled.
Their results enter as parameters: the latest q_id, the fetched questions,
the saved hidden ids, the query parameters and the timestamp.

Where the source's data or comments suggest more than its code does, the
model follows the code:

- The registry gives every Lover sub-relation and all Family ones but
  Cousin and Grandparent a `validPairs` list (app/constants.ts:21-39),
  but `generatePossibleCodes` never reads it. A
  Family/Sister filter with pair `M-M` still yields `M-M-Fa-Si-L1..L5`.
- The comments at app/actions.ts:29-39 expect the interface to send a
  relation whenever it sends a sub. The code does not rely on that: a sub
  filter given without a relation searches all three relations, and keeps
  the codes of the relation that owns the sub.

## Model

| member | source | states |
|---|---|---|
| Constants.GenderPairsShape | app/constants.ts:1-6 | the pair values are exactly M-M, F-F, M-F, F-M in that order, each two one-letter tokens around a dash, no duplicates |
| Constants.PairValuesMatch | app/constants.ts:1-6 | the value list is `GENDER_PAIRS.map(g => g.value)`, element by element |
| Constants.RelationKeysMatch | app/constants.ts:8-41 | the key list is the registry's keys in declaration order, and a lookup succeeds exactly for those keys |
| Constants.LookupShape | app/constants.ts:8-41 | looking a key up in the registry gives Friend, Family, Lover for B, Fa, Lo and nothing for any other key |
| Constants.SubsOfMatch | app/constants.ts:8-41 | the literal sub-relation lists are the registry's `subs.map(s => s.value)`, or empty for an unknown key |
| Constants.RelationsShape | app/constants.ts:9-41 | keys B, Fa, Lo in order, with 4, 10 and 4 sub-relations, listed exactly |
| Constants.FriendShape | app/constants.ts:9-17 | the Friend entry's sub values are Ar, Sc, Or, Dc |
| Constants.FamilyShape | app/constants.ts:18-31 | the Family entry's sub values are the ten listed, in order |
| Constants.LoverShape | app/constants.ts:32-40 | the Lover entry's sub values are Sw, Gw, Hw, Pw |
| Constants.RegistrySubsNoDup | app/constants.ts:12-39 | the three sub-relation lists together hold no value twice |
| Constants.AllSubValuesNoDup | app/constants.ts:12-39 | the sub values of every registry entry, concatenated, hold no value twice |
| Constants.SubValuesUnique | app/constants.ts:12-39 | a sub-relation value belongs to at most one relation |
| Constants.LiteralSubsDisjoint | app/constants.ts:12-39 | the three sub-relation lists are pairwise disjoint |
| Constants.OwnerOf | app/constants.ts:12-39 | the owning relation of a sub-relation, if any: the sub is in its owner's list, and an unowned sub is in no list |
| Constants.SubsOfNoDup | app/constants.ts:12-39 | no relation lists a sub-relation twice |
| Constants.ValidPairsAreGenderPairs | app/constants.ts:21-39 | every `validPairs` entry is one of the four pair values |
| Constants.ValidPairsOptional | app/constants.ts:12-39 | `validPairs` is absent exactly on Ar, Sc, Or, Dc, Co and Gp |
| Constants.IntimacyLevelsShape | app/constants.ts:44 | the levels are L1..L5 in order, no duplicates |
| Constants.NoDashInTokens | app/constants.ts:9-44 | no relation key, sub-relation value or level contains a dash |
| Constants.RelationKeysShape | app/constants.ts:8-41 | the keys are B, Fa, Lo, dash-free and distinct |
| Constants.SubDashFree | app/constants.ts:12-39 | a registered sub-relation value has no dash |
| Types.TypeCode | app/types.ts:1 | every question type is spelled with one letter |
| Types.ParseType | app/types.ts:1 | a string names a type exactly when it is T, B or M, and the type's letter is that string |
| Types.TypeCodeRoundTrip | app/types.ts:1 | parsing a type's letter gives the type back |
| Codes.GeneratePossibleCodes | app/actions.ts:9-51 | the nested loops push exactly the specification's code list |
| Codes.PossibleCodes | app/actions.ts:9-51 | the codes the filter admits, in loop order; its properties are the PossibleCodes* lemmas below |
| Codes.PushPairCodes | app/actions.ts:23-48 | the pair loop appends, pair after pair, every code of each pair in pair order |
| Codes.PushRelCodes | app/actions.ts:24-47 | the relation loop appends, for one pair, each relation's codes in relation order |
| Codes.RelationSubs | app/actions.ts:25-40 | the surviving sub-relations of a relation: none for an unknown key, all without a sub filter, else just the filtered sub if the relation owns it |
| Codes.PushSubCodes | app/actions.ts:42-46 | the sub and level loops append one code per sub and level, in that order |
| Codes.PushLevelCodes | app/actions.ts:43-45 | the level loop appends one code per level for a fixed pair, relation and sub, in level order |
| Codes.KeptSubsFacts | app/actions.ts:25-40 | surviving subs come from a registered, dash-free relation, are registered and dash-free, and are distinct |
| Codes.PairAxisShape | app/actions.ts:10 | the pairs in scope are the given pair, or the four registry pairs |
| Codes.RelAxisShape | app/actions.ts:13-18 | the relations in scope are the given one, or B, Fa, Lo |
| Codes.LevelAxisShape | app/actions.ts:11 | the levels in scope are the given level, or L1..L5 |
| Codes.AxesFacts | app/actions.ts:10-18 | the pair and level axes are non-empty and distinct, all pairs have the same width, the relations are distinct |
| Codes.CodeInjective | app/actions.ts:44 | a code built from equal-width pairs and dash-free relation and sub determines its four parts |
| Codes.LevelInjective | app/actions.ts:44 | codes that agree up to the level agree on the level |
| Codes.TailSplit | app/actions.ts:44 | splitting `rel-sub-level` on dashes gives rel, sub, then the level's pieces |
| Codes.RegistryCodeSplit | app/actions.ts:44 | a code from registry parts splits on '-' into exactly its five tokens |
| Codes.FiveTokens | app/actions.ts:44 | dash-free tokens joined into a code split back into those five tokens |
| Codes.RegistryPairSplit | app/constants.ts:1-6 | every pair value is one letter, a dash, one letter |
| Codes.PossibleCodesMembers | app/actions.ts:9-51 | a string is generated iff it is the code of some pair, relation, surviving sub and level in scope |
| Codes.PossibleCodesWellFormed | app/actions.ts:25-46 | every generated code names a registered relation and one of its sub-relations |
| Codes.PossibleCodesLength | app/actions.ts:23-48 | the number of codes is pairs × surviving subs × levels |
| Codes.PossibleCodesNoDup | app/actions.ts:23-48 | no code is generated twice |
| Codes.PossibleCodesEmpty | app/actions.ts:23-48 | no codes exactly when no relation in scope keeps a sub-relation |
| Codes.UnknownRelationEmpty | app/actions.ts:25-26 | an unregistered relation key yields no codes |
| Codes.UnownedSubEmpty | app/actions.ts:29-39 | a relation with a sub it does not own yields no codes |
| Codes.SubWithoutRelation | app/actions.ts:13-40 | a sub given without a relation yields the owner's codes for every pair and level, or none for an unowned sub |
| Codes.OwnerKeeps | app/actions.ts:29-39 | under a sub filter a relation keeps exactly that sub if it owns it, else nothing |
| Codes.AllLevels | app/actions.ts:43-45 | one pair, relation and sub give the five codes for L1..L5 in order |
| Codes.SubArExample | scripts/verify-questions.js:33-41 | the Area sub alone yields the twenty Friend/Area codes, four pairs by five levels |
| Codes.FriendBrotherExample | app/actions.ts:29-39 | relation Friend with sub Brother yields no codes |
| Codes.ValidPairsIgnoredExample | app/actions.ts:28-46 | M-M, Family, Sister yields the five M-M-Fa-Si codes although Sister's validPairs exclude M-M |
| Codes.UnfilteredCount | app/actions.ts:10-48 | an all-empty filter yields 4 × 18 × 5 = 360 codes |
| Actions.SortOrder | app/actions.ts:90-110 | every sort key gives an order clause |
| Actions.SortKey | app/actions.ts:90-110 | every column/direction has a sort key among the six |
| Actions.SortKeyRoundTrip | app/actions.ts:90-110 | the sort switch maps each key back to its own column and direction |
| Actions.SortOrderKeys | app/actions.ts:90-110 | a known key is read as itself; any other key falls to q_id descending |
| Actions.DefaultSortOrder | app/actions.ts:56 | the default sort is created_at descending |
| Actions.GetQuestionsQuery | app/actions.ts:56-115 | the query built step by step is the type, search and code clauses, then the sort, then the window |
| Actions.BuildFilterClauses | app/actions.ts:62-87 | the type, search and code-filter steps add their clauses in that order, each only when its input is set |
| Actions.FilterClauses | app/actions.ts:62-87 | at most three filter clauses, none ordering or paging; a type clause exists iff a type is set, and it comes first |
| Actions.CodeClauses | app/actions.ts:71-87 | the code step adds at most one clause, an overlap or a q_id clause |
| Actions.QueryFor | app/actions.ts:56-115 | two to five clauses; the sort is second to last, the window last, and no filter clause orders or pages |
| Actions.CodeFilterClauses | app/actions.ts:71-87 | the code-filter step adds nothing, an overlap with the generated codes, or the IMPOSSIBLE id |
| Actions.CodeClauseOutcomes | app/actions.ts:71-87 | no clause iff no active code filter; the sentinel iff active and nothing survives; an overlap iff active with codes |
| Actions.CodeFilterSelects | app/actions.ts:71-87 | a row with an ordinary q_id passes the code step iff no filter is active or one of its codes is generated |
| Actions.QueryTail | app/actions.ts:90-115 | the query ends with the sort clause and the window skip..skip+limit-1, defaults applied |
| Actions.TypeClausePresent | app/actions.ts:62-64 | the query has a type clause for t iff the filter's type is t |
| Actions.WindowSize | app/actions.ts:115 | with a positive page size, the query's last clause is the window starting at `skip` that spans exactly `limit` rows (default 50) |
| NextId.FirstIdFormat | app/actions.ts:265-282 | the fallback ID is the formatted ID 1 under the dash-free head `<type>25` |
| NextId.NextQuestionId | app/actions.ts:261-299 | every next ID contains a dash, whatever the latest stored ID |
| NextId.FormatIdSplit | app/actions.ts:286-298 | a formatted ID splits into its head and its padded number |
| NextId.NextOfFormatted | app/actions.ts:286-298 | after the ID numbered n comes the ID numbered n+1, same head |
| NextId.NextIdFormatted | app/actions.ts:261-299 | every next ID is a dash-free head, a dash, and a number ≥ 1 padded to five digits |
| NextId.NextIdExample | app/actions.ts:286-298 | after T25-00041 comes T25-00042 |
| NextId.SinglePartRestarts | app/actions.ts:286-287 | a latest ID without a dash restarts at the first ID |
| NextId.NonNumericRestarts | app/actions.ts:286-292 | a latest ID `head-tail` whose tail does not start with a digit restarts at the first ID, whatever further dash parts the tail holds (`T25-abc-1`) |
| NextId.NextIdDigitsThen | app/actions.ts:286-298 | `head-<digits><rest>`, for any non-empty digit run (leading zeros included) and any rest not starting with a digit (further dash parts included), is followed by head and the run's value plus one, padded to five digits: `T25-007` gives `T25-00008` |
| NextId.NextIdOfParts | app/actions.ts:286-298 | when the second dash part parses as v, the next ID is the first dash part, a dash and v+1 padded to five digits |
| NextId.DigitsThenParts | app/actions.ts:286-290 | the dash parts of `head-<digits><rest>` are at least two, the first is head and the second parses as the digits' value |
| NextId.NextIdIgnoresSuffix | app/actions.ts:286-298 | the same for the shortest numeral of n: `head-<n><rest>` is followed by head and n+1 padded to five digits (`T25-12abc` gives `T25-00013`) |
| NextId.NextIdDashedExample | app/actions.ts:286-298 | after `T25-00041-b` comes `T25-00042`: the third dash part is dropped |
| NextId.FormatIdDash | app/actions.ts:298 | every formatted ID contains a dash |
| NextId.SecondPart | app/actions.ts:286-290 | the dash parts of `head-tail` with a dash-free head are the head and then the tail's parts, so `parts[1]` is the tail's first part |
| NextId.FirstIdExample | app/actions.ts:280-282 | with no Balance question yet the next ID is B25-00001 |
| Actions.NextIdNotSentinel | app/actions.ts:261-299 | a generated ID is never the IMPOSSIBLE sentinel |
| Actions.CleanCodeNames | app/actions.ts:159 | the non-empty given codes, no empty string, each as often as given (multiset) and in the given order (subsequence) |
| Actions.CleanCodeNamesIdempotent | app/actions.ts:159 | cleaning twice is cleaning once; a list without empty strings is kept as is |
| Actions.SavePayload | app/actions.ts:142-168 | keyed by the q_id, with the type, content and timestamp; the codes are non-empty, in order, and every non-empty given code is kept; only B saves choices and only M a game code; no difficulty |
| Actions.DifficultyOr1 | app/actions.ts:210 | never zero: a stored non-zero difficulty is kept, a missing or zero one reads as 1 |
| Actions.MapRowToQuestion | app/actions.ts:183-216 | a question exactly for type B, T or M, of that type, else the base with the letter; id, q_id, content and created_at copied; missing codes become []; no updated_at, publication flag or UI properties |
| Actions.MapRowBalance | app/actions.ts:193-200 | a B row yields a Balance question whose choices are the stored non-empty ones, else ""; no statistics |
| Actions.MapRowTruth | app/actions.ts:201-205 | a T row yields a Truth question whose answers are the stored non-empty ones, else ""; no keyword |
| Actions.MapRowMiniGame | app/actions.ts:206-212 | an M row yields a mini-game with the stored game code or "", the stored non-zero difficulty or 1, the stored config or "{}"; with no details all three defaults |
| Actions.SaveLoadRoundTrip | app/actions.ts:142-216 | a saved question loads back as itself with cleaned codes, the store's id and time, and defaults for what the save drops |
| Actions.RoundTripIdempotent | app/actions.ts:142-216 | a second save and load changes nothing further and keeps the type |
| HideSelect.ToggledMembers | app/questions/QuestionListTable.tsx:55-59 | toggling flips the id's membership and no other id's |
| HideSelect.Toggled | app/questions/QuestionListTable.tsx:55-59 | the id is in the new selection iff it was not in the old one |
| HideSelect.ToggledShape | app/questions/QuestionListTable.tsx:55-59 | a selected id is removed everywhere (shorter list); a new one is appended at the end |
| HideSelect.ToggleTwice | app/questions/QuestionListTable.tsx:55-59 | toggling an id twice restores every id's membership |
| HideSelect.ToggleTwiceNew | app/questions/QuestionListTable.tsx:55-59 | toggling a new id twice gives the selection back exactly |
| HideSelect.ToggledNoDup | app/questions/QuestionListTable.tsx:55-59 | toggling keeps a duplicate-free selection duplicate-free |
| HideSelect.HideAll | app/questions/QuestionListTable.tsx:61-65 | the new hidden list has no duplicates |
| HideSelect.UnhideAll | app/questions/QuestionListTable.tsx:67-71 | no longer than the hidden list, and no selected id stays hidden |
| HideSelect.HideAllShape | app/questions/QuestionListTable.tsx:61-65 | hiding gives the union, duplicate-free, the hidden ids first and the new ones after in selection order |
| HideSelect.UnhideAllMembers | app/questions/QuestionListTable.tsx:67-71 | unhiding keeps exactly the hidden ids not selected, each as often as it was hidden (multiset), in hidden-list order (subsequence) |
| HideSelect.HideThenUnhide | app/questions/QuestionListTable.tsx:61-71 | hide then unhide leaves the old hidden ids minus the selection; a duplicate-free, disjoint hidden list is unchanged |
| HideSelect.UnhideNoDup | app/questions/QuestionListTable.tsx:67-71 | unhiding keeps a duplicate-free hidden list duplicate-free |
| HideSelect.Displayed | app/questions/QuestionListTable.tsx:74-76 | no more questions than the list, and every one shown belongs to the current view |
| HideSelect.DisplayedMembers | app/questions/QuestionListTable.tsx:74-76 | a view shows exactly the questions whose q_id is hidden (hidden view) or not hidden (active view) |
| HideSelect.DisplayedPartition | app/questions/QuestionListTable.tsx:74-76 | the two views together have as many questions as the list |
| HideSelect.DisplayedOrdered | app/questions/QuestionListTable.tsx:74-76 | each view keeps list order |
| QuestionListTable.Table.constructor | app/questions/QuestionListTable.tsx:17-19 | nothing hidden, nothing selected, the active view |
| QuestionListTable.Table.RestoreHiddenIds | app/questions/QuestionListTable.tsx:38-47 | the saved hidden ids replace the list; the selection invariant is unaffected |
| QuestionListTable.Table.ToggleSelect | app/questions/QuestionListTable.tsx:55-59 | the selection becomes the toggled list, stays duplicate-free, and holds the id iff it did not before |
| QuestionListTable.Table.HandleHideSelected | app/questions/QuestionListTable.tsx:61-65 | hidden becomes the de-duplicated union, the selection is emptied |
| QuestionListTable.Table.HandleUnhideSelected | app/questions/QuestionListTable.tsx:67-71 | hidden loses the selected ids, the selection is emptied |
| QuestionListTable.Table.ToggleView | app/questions/QuestionListTable.tsx:87-90 | the view flips and the selection is emptied |
| QuestionListTable.Table.DisplayedQuestions | app/questions/QuestionListTable.tsx:74-76 | the shown questions are those of the current view, in list order |
| DashboardAnalytics.FetchFilter | app/components/DashboardAnalytics.tsx:44-56 | a fetch happens only with a sub chosen; it pins the sub, adds the level only when one is set, and asks for 50 |
| DashboardAnalytics.FetchCodes | app/components/DashboardAnalytics.tsx:50-56 | the fetch matches the owner's codes for all four pairs at the chosen level(s), or the sentinel for an unowned sub |
| DashboardAnalytics.FetchWindow | app/components/DashboardAnalytics.tsx:50-56 | the fetch sorts newest first and reads rows 0..49 |
| DashboardAnalytics.Panel.constructor | app/components/DashboardAnalytics.tsx:16-24 | no sub or level, no questions, nothing hidden or selected, the active view |
| DashboardAnalytics.Panel.RestoreHiddenIds | app/components/DashboardAnalytics.tsx:27-36 | the saved hidden ids replace the list; the selection invariant is unaffected |
| DashboardAnalytics.Panel.CurrentFetch | app/components/DashboardAnalytics.tsx:44-48 | the panel fetches exactly while a sub is chosen |
| DashboardAnalytics.Panel.ReceiveQuestions | app/components/DashboardAnalytics.tsx:57 | the fetched questions replace the list |
| DashboardAnalytics.Panel.HandleBarClick | app/components/DashboardAnalytics.tsx:65-68 | the sub is set, the level is the given one or none, the selection is emptied |
| DashboardAnalytics.Panel.SelectLevel | app/components/DashboardAnalytics.tsx:150-161 | a level tab sets the level and keeps the selection |
| DashboardAnalytics.Panel.Close | app/components/DashboardAnalytics.tsx:138 | closing clears the sub, so nothing is fetched |
| DashboardAnalytics.Panel.ToggleSelect | app/components/DashboardAnalytics.tsx:75-79 | as the table's toggle |
| DashboardAnalytics.Panel.HandleHideSelected | app/components/DashboardAnalytics.tsx:81-85 | as the table's hide |
| DashboardAnalytics.Panel.HandleUnhideSelected | app/components/DashboardAnalytics.tsx:87-91 | as the table's unhide |
| DashboardAnalytics.Panel.ToggleView | app/components/DashboardAnalytics.tsx:125-128 | the view flips and the selection is emptied |
| DashboardAnalytics.Panel.DisplayedQuestions | app/components/DashboardAnalytics.tsx:94-96 | the shown questions are the fetched ones of the current view, in order |
| Pagination.TotalPages | app/components/Pagination.tsx:17 | the page count is the ceiling of total / limit |
| Pagination.TotalPagesLeast | app/components/Pagination.tsx:17 | no smaller page count holds every row |
| Pagination.TotalPagesSmall | app/components/Pagination.tsx:17 | no rows give no pages, up to one page of rows gives one page |
| Pagination.PageButton | app/components/Pagination.tsx:49-55 | a button never names a page below 1 |
| Pagination.PageButtons | app/components/Pagination.tsx:48-57 | min(5, totalPages) buttons, each naming an existing page 1..totalPages, whatever the current page |
| Pagination.NoButtonsWhenEmpty | app/components/Pagination.tsx:17-48 | there are no buttons exactly when there are no rows |
| Pagination.FewPages | app/components/Pagination.tsx:48-49 | up to five pages: the buttons are 1..totalPages |
| Pagination.ManyPagesNearStart | app/components/Pagination.tsx:49-53 | more than five pages, current page ≤ 3: the buttons are 1..5 |
| Pagination.ManyPagesWindow | app/components/Pagination.tsx:50-53 | more than five pages, current page > 3: button i is currentPage−2+i, or i+totalPages−4 past the end |
| Pagination.GuardNeverFires | app/components/Pagination.tsx:49-55 | the `p < 1` guard never changes a button |
| Pagination.RepeatedPagesExample | app/components/Pagination.tsx:50-53 | seven pages, page seven current: 5, 6, 7, 6, 7 — pages can repeat |
| Pagination.PrevDisabled | app/components/Pagination.tsx:40 | the previous arrow is disabled on page 1; its use is stated by ArrowsStayInRange and EmptyNextEnabled |
| Pagination.NextDisabled | app/components/Pagination.tsx:74 | the next arrow is disabled on the last page; its use is stated by ArrowsStayInRange and EmptyNextEnabled |
| Pagination.ArrowsStayInRange | app/components/Pagination.tsx:40-74 | from an existing page an enabled arrow leads to an existing page; both are disabled only on a single page |
| Pagination.EmptyNextEnabled | app/components/Pagination.tsx:17-74 | with no rows, on page 1 the previous arrow is disabled and the next one enabled |
| Pagination.SetPage | app/components/Pagination.tsx:23-27 | only `page` changes, to the page number in decimal |
| Pagination.SetPageReadBack | app/components/Pagination.tsx:23-27 | the written page parses back to the page |
| QuestionFilterToolbar.ParamOr | app/questions/QuestionFilterToolbar.tsx:18-27 | a present non-empty parameter is read as is, otherwise the fallback |
| QuestionFilterToolbar.CreateQueryString | app/questions/QuestionFilterToolbar.tsx:29-37 | a non-empty value is set, an empty one deletes the name, nothing else changes |
| QuestionFilterToolbar.CreateThenRead | app/questions/QuestionFilterToolbar.tsx:18-37 | reading a written parameter gives the value, or the fallback when it was deleted |
| QuestionFilterToolbar.WrittenStep | app/questions/QuestionFilterToolbar.tsx:43-51 | one more set-or-delete under a new name extends the written fields |
| QuestionFilterToolbar.WrittenCompose | app/questions/QuestionFilterToolbar.tsx:43-51 | writing the basic then the advanced fields writes all of them |
| QuestionFilterToolbar.DropUnwritten | app/questions/QuestionFilterToolbar.tsx:54 | deleting `page` keeps every written field |
| QuestionFilterToolbar.WrittenReadBack | app/questions/QuestionFilterToolbar.tsx:18-51 | a toolbar rebuilt from the written URL shows the same fields |
| QuestionFilterToolbar.CountNonEmpty | app/questions/QuestionFilterToolbar.tsx:80 | the length of the list with the empty strings removed: at most the number of values, zero iff all are empty |
| QuestionFilterToolbar.Toolbar.constructor | app/questions/QuestionFilterToolbar.tsx:18-27 | each field reads its parameter or ''; the sort defaults to created_desc |
| QuestionFilterToolbar.Toolbar.SetRelation | app/questions/QuestionFilterToolbar.tsx:176-179 | choosing a relation clears the sub; the sub selector is disabled iff no relation |
| QuestionFilterToolbar.Toolbar.SubDisabled | app/questions/QuestionFilterToolbar.tsx:194-198 | a disabled sub selector offers no sub-relations |
| QuestionFilterToolbar.Toolbar.SubOptions | app/questions/QuestionFilterToolbar.tsx:194-199 | no options without a relation, else exactly that relation's subs, distinct and all owned by it |
| QuestionFilterToolbar.Toolbar.ActiveFilterCount | app/questions/QuestionFilterToolbar.tsx:80 | the number of non-empty values among gender, relation, sub and level: between 0 and 4, zero iff all four are empty |
| QuestionFilterToolbar.Toolbar.ShowClear | app/questions/QuestionFilterToolbar.tsx:148 | the clear button shows whenever a filter is counted |
| QuestionFilterToolbar.Toolbar.HandleSearch | app/questions/QuestionFilterToolbar.tsx:39-57 | each of the seven fields is set or deleted, `page` is removed, every other parameter is kept |
| QuestionFilterToolbar.Toolbar.WriteBasic | app/questions/QuestionFilterToolbar.tsx:43-45 | q, type and sort are written |
| QuestionFilterToolbar.Toolbar.WriteAdvanced | app/questions/QuestionFilterToolbar.tsx:48-51 | gender, relation, sub and level are written |
| QuestionFilterToolbar.Toolbar.Fields | app/questions/QuestionFilterToolbar.tsx:43-51 | the toolbar writes exactly the seven parameters q, type, sort, gender, relation, sub, level |
| QuestionFilterToolbar.Toolbar.ClearFilters | app/questions/QuestionFilterToolbar.tsx:59-78 | every field cleared, the sort reset, the type kept only without a type selector; the target URL holds only that type; afterwards no active filter, and the clear button shows iff a kept type remains |
| Migrate.TrimEach | scripts/migrate-to-supabase.js:33 | one piece per part, position by position; each piece is trimmed and is its part with only whitespace cut from the ends |
| Migrate.ParseCodeNames | scripts/migrate-to-supabase.js:33 | every code is non-empty, comma-free and trimmed; exactly the non-empty trimmed pieces are kept, each as often as it occurs and in column order |
| Migrate.NoCodeName | scripts/migrate-to-supabase.js:33 | a missing or empty CodeName gives no codes |
| Migrate.CodeNamesRoundTrip | scripts/migrate-to-supabase.js:33 | joining clean codes with commas and parsing gives them back in order |
| Migrate.VerbatimCode | scripts/migrate-to-supabase.js:33-44 | any clean code is stored as written, with no taxonomy check |
| Migrate.BalanceRow | scripts/migrate-to-supabase.js:31-46 | type 'B', q_id, content and time copied, details with only the two choices, codes non-empty, comma-free and trimmed |
| Migrate.TruthRow | scripts/migrate-to-supabase.js:69-82 | type 'T', q_id, content and time copied, details with only the answers, codes non-empty, comma-free and trimmed |
| Migrate.MapRecords | scripts/migrate-to-supabase.js:31-46 | one row per record, in place, with the record's q_id and content and the file's type letter |
| Migrate.KeepComplete | scripts/migrate-to-supabase.js:47 | no more rows than given; every survivor was given and has a q_id and content |
| Migrate.MigrateFile | scripts/migrate-to-supabase.js:31-47 | at most one row per record, each complete and with the file's type letter |
| Migrate.KeepCompleteMembers | scripts/migrate-to-supabase.js:47 | exactly the rows with a q_id and content survive |
| Migrate.KeepCompleteOrdered | scripts/migrate-to-supabase.js:83 | the survivors keep CSV order |
| Migrate.MigrateFileShape | scripts/migrate-to-supabase.js:31-83 | each row is the mapping of a complete record, every complete record yields one, order is kept, all carry the file's type |
| Migrate.BalanceLoads | scripts/migrate-to-supabase.js:31-47 | a migrated Balance row loads as a Balance question with its codes and choices |
| Migrate.TruthLoads | scripts/migrate-to-supabase.js:69-83 | a migrated Truth row loads as a Truth question with its codes and answers |
| Text.Split | app/actions.ts:286 | at least one piece, none holding the separator |
| Text.SplitJoin | app/actions.ts:286 | splitting a join of separator-free pieces gives the pieces |
| Text.JoinSplit | app/actions.ts:286 | joining the pieces of a split with the separator gives the string back |
| Text.SplitFirstPrefix | app/actions.ts:286 | the first piece of a split is a prefix of the string |
| Text.SplitFirstConcat | app/actions.ts:286 | a separator-free front of the string belongs wholly to the first piece |
| Text.Trim | scripts/migrate-to-supabase.js:33 | no whitespace at either end, and the result is a slice of the input with only whitespace outside it |
| Text.ParseInt | app/actions.ts:289-292 | NaN (None) exactly when the text does not start with a digit |
| Text.ParseDigitsThen | app/actions.ts:290 | a digit run followed by a non-digit (or nothing) parses as the value of the digit run |
| Text.ParseNumberThen | app/actions.ts:290 | the decimal numeral of n followed by a non-digit (or nothing) parses as n |
| Text.ParsePadded | app/actions.ts:295-298 | a zero-padded number parses back to itself |
| Text.PadStart | app/actions.ts:296 | the result is the width or longer, the fill in front of the string |
| Text.NatToDecimal | app/actions.ts:296 | the decimal digits denote the number, without a leading zero: a numeral starting with '0' is exactly "0" |
| Lists.RemoveAllMembers | app/questions/QuestionListTable.tsx:57 | filtering out x keeps exactly the elements other than x |
| Lists.RemoveAll | app/questions/QuestionListTable.tsx:57 | filtering out x never lengthens the list and leaves no x |
| Lists.RemoveAllOrdered | app/questions/QuestionListTable.tsx:57 | filtering out x keeps the remaining elements in order |
| Lists.RemoveAllCount | app/questions/QuestionListTable.tsx:57 | filtering out x keeps every other element as often as it occurs |
| Lists.DedupMembers | app/questions/QuestionListTable.tsx:63 | de-duplication keeps every element and adds none |
| Lists.Dedup | app/questions/QuestionListTable.tsx:63 | de-duplication never lengthens a list and empties only the empty list |
| Lists.DedupIsNoDup | app/questions/QuestionListTable.tsx:63 | the de-duplicated list has no duplicates |
| Lists.DedupConcat | app/questions/QuestionListTable.tsx:63 | de-duplicating a concatenation is the first part's first occurrences then the second's new ones |
| Lists.WithoutMembers | app/questions/QuestionListTable.tsx:69 | `filter(!includes)` keeps exactly the elements outside the second list |
| Lists.Without | app/questions/QuestionListTable.tsx:69 | never longer than the list, and no element of the second list remains |
| Lists.WithoutOrdered | app/questions/QuestionListTable.tsx:69 | the kept elements are in list order |
| Lists.WithoutCount | app/questions/QuestionListTable.tsx:69 | each kept element occurs as often as in the list; each removed one not at all |

## Left out

- Database access (Supabase): query execution, the count query, errors and the upsert. The query is modelled as its list of clauses. The latest q_id, the fetched rows and the stored row are parameters.
- The search clause's `ilike` matching (case-insensitive substring search in content or q_id): the model records the clause only.
- The exact count `total` and `getDashboardStats`: these are concurrent count queries, and their 7-day window depends on the clock.
- Timestamps (`new Date().toISOString()`): the save and the migration take the time as a parameter. The migration uses one time for all rows, where the script reads the clock per record.
- `checkSpelling`: it wraps a foreign spelling library.
- localStorage: reading and writing the hidden ids is modelled as assigning the list (`RestoreHiddenIds`). `saveHiddenIds` is the field update inside the hide and unhide handlers.
- `handleToggleStatus`, `router.push` and `router.refresh`: these are asynchronous I/O. The toolbar's and the pagination's navigation targets are returned as parameter maps.
- URLSearchParams ordering and percent-encoding: query parameters are a map from name to value.
- JavaScript `parseInt` on a leading sign or whitespace, and floating point: `parseInt` is the leading decimal-digit run. `Math.ceil(total / limit)` is integer ceiling division. Both rely on `limit > 0`, as the question page passes 20.
- Object prototype keys as relation names (`RELATION_MAP['constructor']`): the registry lookup covers only its own keys, so such a key is unknown.
- The registry's labels are only partly modelled: the lookup table holds full entries, and the literal sub-relation lists used in proofs are tied to them by `SubsOfMatch` and `LookupShape`.
- The next-ID rule on literal IDs: T25-00041, T25-00041-b and the empty store are the worked examples. `NextIdDigitsThen`, `NonNumericRestarts`, `SinglePartRestarts` and `NextOfFormatted` cover the general cases.
- Whitespace in `trim` beyond ASCII space, tab, newline and carriage return: the vertical tab `\v`, the form feed `\f` and Unicode spaces, which JavaScript `trim` strips, do not count as whitespace here.
- Rendering (StatsChart, layout, sidebar, the question form) and the question page's `skip = (page − 1) · 20`.
- DashboardAnalytics.Panel.ReceiveQuestions: the loading flag and the error path of the fetch are not modelled. Neither is the order in which fetches complete: `fetchQuestions` has no cancellation, so a response for an earlier sub or level that arrives after a later one overwrites the list. `ReceiveQuestions` accepts any result and is not tied to `CurrentFetch`.
