# Clinical-trials explorer: filtering engine

This project models the filtering engine of a clinical-trials explorer in
Dafny. The explorer holds a list of trial records (NCT number, title, status,
conditions, sponsor, study type, URL). A user narrows the list in two stages:

- **The search stage.** A chain of committed search terms, each linked to the
  next by `AND` or `OR` and folded strictly left to right, plus an optional
  in-progress text joined to the chain by a default operator. A
  case-insensitive sponsor substring test is applied on top.
- **The facet stage.** Status and study-type check boxes narrow the
  search-filtered rows further.

Facet statistics are tallied over the search-filtered rows only. Ticking a
box therefore never changes which boxes are offered or their counts.

The model covers:

- the evaluator and the filter store of `lib/hooks/useTrials.ts`: the
  `TrialsState` class with `UpdateFilters` (shallow merge) and `ClearFilters`;
- the term-chain editing of the search bar;
- the check-box and badge handlers of the filter panel;
- the label and colour helpers of `lib/format.ts`.

The code is split into modules:

- `Text`: ASCII case mapping, substring search, JavaScript `trim`, split/join.
- `Lists`: order-preserving filter, remove-all, drop-at-index, subsequence.
- `Types`: records, operators, the criteria record and its partial update.
- `Evaluator`: search, facets and statistics.
- `Store`: merge and the state class.
- `SearchBar`, `FilterPanel`, `Format`: the UI handlers and helpers.

The loops in the source are kept as loops in methods: the term-chain `for`
loop, the statistics `forEach`, and the filter over the records. Each method
is proved equal to a specification function. The properties are proved as
lemmas about those functions.

## Model

| member | source | states |
|---|---|---|
| Text.Lower | lib/hooks/useTrials.ts:38 | lower-casing keeps the length and maps every character by the ASCII lower-case map |
| Text.Upper | lib/format.ts:14 | upper-casing keeps the length and maps every character by the ASCII upper-case map |
| Text.CaseFolding | lib/format.ts:14 | lower-casing is idempotent, and lower/upper-casing ignore a previous change of case |
| Text.LowerConcat | lib/hooks/useTrials.ts:33-38 | lower-casing distributes over concatenation |
| Text.Includes | lib/hooks/useTrials.ts:42 | `includes` holds iff the needle occurs at some position; the empty needle always occurs |
| Text.IncludesInConcat | lib/hooks/useTrials.ts:33-38 | a needle found in one part is found in any text built around that part |
| Text.IncludesTransitive | lib/hooks/useTrials.ts:33-38 | a needle of a piece of the text is a needle of the text |
| Text.IsWhitespace | components/search-bar.tsx:39 | the characters `trim` removes: the ECMAScript white-space and line-terminator code points |
| Text.TrimStart | components/search-bar.tsx:39 | the result is a suffix of the input; the dropped prefix is exactly the leading white space |
| Text.TrimEnd | components/search-bar.tsx:39 | the result is a prefix of the input; the dropped suffix is exactly the trailing white space |
| Text.Trim | components/search-bar.tsx:45-47 | the result is a slice of the input with only white space cut at both ends; it is empty iff the input is all white space |
| Text.TrimIdempotent | components/search-bar.tsx:45-47 | trimming a trimmed value changes nothing |
| Text.Split | lib/format.ts:5 | split yields at least one piece and no piece holds the separator |
| Text.Join | lib/format.ts:7 | `join(' ')`: the pieces in order with one separator between neighbours |
| Text.JoinConsFirst | lib/format.ts:7 | prepending a character to the first piece prepends it to the join |
| Text.JoinSplit | lib/format.ts:5-7 | joining the pieces of a split with the same separator gives back the input |
| Lists.Filter | lib/hooks/useTrials.ts:32 | a filter keeps only elements of the input that pass, and is no longer than the input |
| Lists.FilterAppend | lib/hooks/useTrials.ts:32 | filtering a concatenation is concatenating the filtered parts |
| Lists.FilterCounts | lib/hooks/useTrials.ts:107 | a passing element keeps its multiplicity and a failing one disappears |
| Lists.FilterIsSubsequence | lib/hooks/useTrials.ts:107 | the filtered list is a subsequence of the input, in the same order |
| Lists.FilterMembership | lib/hooks/useTrials.ts:107 | an element is kept iff it is in the input and passes |
| Lists.FilterAll | lib/hooks/useTrials.ts:80 | when every element passes, the filter returns the input |
| Lists.FilterAgree | lib/hooks/useTrials.ts:31-82 | two tests that agree on every element give the same filter |
| Lists.Without | components/filter-panel.tsx:65 | removing a value drops all its occurrences, keeps every other entry with its multiplicity, in order |
| Lists.DropIndex | components/search-bar.tsx:65 | a valid index drops exactly that position; any other index leaves the list as it was |
| Evaluator.SearchableText | lib/hooks/useTrials.ts:33-38 | title, conditions, sponsor and NCT number joined by single spaces, lower-cased |
| Evaluator.Chain | lib/hooks/useTrials.ts:42-54 | the committed terms folded left to right, each hit combined in under the previous term's operator |
| Evaluator.Hit | lib/hooks/useTrials.ts:42-47 | `searchableText.includes(needle.toLowerCase())` |
| Evaluator.Combine | lib/hooks/useTrials.ts:49-53 | one step of the chain: conjunction for AND, disjunction for OR |
| Evaluator.PassesText | lib/hooks/useTrials.ts:41-73 | the chain, combined with the in-progress text under the default operator; or the text alone; or no constraint |
| Evaluator.PassesSponsor | lib/hooks/useTrials.ts:76-78 | an empty sponsor search passes; otherwise the lower-cased sponsor must contain the lower-cased search |
| Evaluator.PassesSearch | lib/hooks/useTrials.ts:32-81 | the predicate handed to `initialTrials.filter`: the text stage and then the sponsor stage |
| Evaluator.PassesFacets | lib/hooks/useTrials.ts:109-116 | an empty selection imposes nothing; otherwise the record's status or type must be selected |
| Evaluator.SearchableTextHoldsFields | lib/hooks/useTrials.ts:33-38 | the searchable text is the four fields plus three separators, and holds each lower-cased field |
| Evaluator.LowerParts | lib/hooks/useTrials.ts:38 | the lower-cased parts of a concatenation occur in its lower-cased form |
| Evaluator.SearchFiltered | lib/hooks/useTrials.ts:31-82 | the search-filtered rows are the input rows that pass the search, with their multiplicities and order |
| Evaluator.Visible | lib/hooks/useTrials.ts:106-120 | the visible rows are the search-filtered rows that pass the facets, with multiplicities and order kept |
| Evaluator.MatchesSearch | lib/hooks/useTrials.ts:33-80 | the per-record test, with its early returns, decides exactly the search predicate |
| Evaluator.FoldChain | lib/hooks/useTrials.ts:42-54 | the loop over adjacent term pairs computes exactly the left-to-right fold of the chain |
| Evaluator.SearchFilterTrials | lib/hooks/useTrials.ts:31-82 | the loop over the records produces exactly the search-filtered rows |
| Evaluator.ChainIgnoresLastOperator | lib/hooks/useTrials.ts:44-46 | the operator of the last term is never consulted |
| Evaluator.ChainAppend | lib/hooks/useTrials.ts:44-54 | a term added at the end combines with the fold so far under the previous last term's operator |
| Evaluator.ChainAllAnd | lib/hooks/useTrials.ts:49-50 | an all-AND chain holds iff every term is contained |
| Evaluator.ChainAllOr | lib/hooks/useTrials.ts:51-52 | an all-OR chain holds iff some term is contained |
| Evaluator.LeftToRightNoPrecedence | lib/hooks/useTrials.ts:42-64 | `[A OR, B] + text` under AND passes iff (A or B) and text, with no precedence |
| Evaluator.NotRightGrouped | lib/hooks/useTrials.ts:42-54 | an example where the left fold and the precedence reading differ |
| Evaluator.SingleTerm | lib/hooks/useTrials.ts:41-67 | one term and nothing else passes iff the searchable text contains that term |
| Evaluator.FieldHit | lib/hooks/useTrials.ts:33-42 | a needle found in any field, ignoring case, is found in the searchable text |
| Evaluator.SponsorIgnoresCase | lib/hooks/useTrials.ts:76 | the sponsor test does not depend on the case of the search |
| Evaluator.SponsorKeepsOtherCase | lib/hooks/useTrials.ts:76 | sponsor search `acme` keeps a record whose sponsor is `Acme Corp` |
| Evaluator.SponsorDropsMismatch | lib/hooks/useTrials.ts:76-78 | sponsor search `acme` drops a record whose sponsor is `Other` |
| Evaluator.NoCriteriaShowsAll | lib/hooks/useTrials.ts:41-80 | with no criteria, the search-filtered and the visible rows both equal the input |
| Evaluator.SearchIgnoresFacets | lib/hooks/useTrials.ts:82 | the search-filtered rows depend only on the terms, text, sponsor and default operator |
| Evaluator.Bump | lib/hooks/useTrials.ts:90-95 | a non-empty key's count goes up by one, starting from zero; the empty key is skipped |
| Evaluator.Tally | lib/hooks/useTrials.ts:89-96 | the counts built by bumping each record's key in order |
| Evaluator.StatsOf | lib/hooks/useTrials.ts:85-103 | the total and the two tallies over a sequence of records |
| Evaluator.TrialStats | lib/hooks/useTrials.ts:85-103 | the statistics over the search-filtered rows of the dataset |
| Evaluator.ComputeStats | lib/hooks/useTrials.ts:85-103 | the tally loop produces exactly the statistics function |
| Evaluator.TallyCounts | lib/hooks/useTrials.ts:89-96 | a key is tallied iff it is non-empty and occurs; its tally is its number of occurrences |
| Evaluator.TallyKeysOccur | lib/hooks/useTrials.ts:90-95 | every tallied key is non-empty and is the value of some counted record |
| Evaluator.SumOverRemove | lib/hooks/useTrials.ts:86-87 | a tally's sum is one key's count plus the sum of the rest, for any key |
| Evaluator.SumOverAgree | lib/hooks/useTrials.ts:86-87 | tallies that agree on their keys have the same sum |
| Evaluator.BumpSum | lib/hooks/useTrials.ts:91 | one increment raises the sum by one, or by nothing for the empty key |
| Evaluator.TallySum | lib/hooks/useTrials.ts:89-96 | the counts of a tally sum to the number of records with a non-empty key |
| Evaluator.StatsTotals | lib/hooks/useTrials.ts:85-103 | the total is the number of search-filtered rows; each tally sums to those with a non-empty value |
| Evaluator.StatsIgnoreFacets | lib/hooks/useTrials.ts:82-103 | the statistics do not depend on the facet selection |
| Store.Merge | lib/hooks/useTrials.ts:122-127 | the spread `{ ...prev, ...partial }`: each field the update gives replaces the old one |
| Store.Then | components/search-bar.tsx:56-60 | two updates sent in a row as one: the fields of the second override those of the first |
| Store.MergeDependsOnlyOnOmitted | lib/hooks/useTrials.ts:122-127 | two old criteria that agree on every field the update leaves out merge to the same result |
| Store.MergeKeepsExactlyWhenRedundant | lib/hooks/useTrials.ts:122-127 | an update leaves the criteria unchanged iff every field it gives already has that value |
| Store.MergeIdentityAndIdempotence | lib/hooks/useTrials.ts:122-127 | the empty update changes nothing; repeating an update changes nothing more |
| Store.MergeThen | lib/hooks/useTrials.ts:122-127 | two updates in a row equal one update that spreads both |
| Store.FacetUpdateKeepsStats | lib/hooks/useTrials.ts:82-103 | an update giving no search field keeps the search-filtered rows and the statistics |
| Store.TrialsState.constructor | lib/hooks/useTrials.ts:21-29 | the store starts with the initial criteria |
| Store.TrialsState.Trials | lib/hooks/useTrials.ts:106-120 | the `trials` the hook returns: the visible rows under the current criteria |
| Store.TrialsState.Statistics | lib/hooks/useTrials.ts:85-103 | the `stats` the hook returns under the current criteria |
| Store.TrialsState.Read | lib/hooks/useTrials.ts:31-120 | a read computes exactly the visible rows and the statistics of the current criteria |
| Store.TrialsState.UpdateFilters | lib/hooks/useTrials.ts:122-127 | the criteria become the merge of the old criteria and the update; a facet-only update keeps the statistics |
| Store.TrialsState.ClearFilters | lib/hooks/useTrials.ts:129-139 | the criteria return to the initial value, under which every record is visible and counted |
| SearchBar.AddTerm | components/search-bar.tsx:44-62 | a blank value sends nothing; otherwise the chain grows by the trimmed value, the old last term is relinked, earlier terms are kept, and the text is cleared |
| SearchBar.HandleKeyDown | components/search-bar.tsx:38-42 | Enter commits under the same condition as the add button; any other key sends nothing |
| SearchBar.RemoveTerm | components/search-bar.tsx:64-67 | a valid index removes exactly that term and keeps the others in order; another index keeps the chain |
| SearchBar.UpdateOperator | components/search-bar.tsx:69-76 | only the operator of the chosen term changes; length and values are kept |
| SearchBar.Relink | components/search-bar.tsx:51-55 | the copy differs from the chain only in the operator of the chosen term |
| SearchBar.CommitKeepsSearch | components/search-bar.tsx:44-62 | committing a trimmed in-progress text does not change whether a record passes the search |
| SearchBar.CommitKeepsRows | components/search-bar.tsx:44-62 | committing a trimmed in-progress text keeps the search-filtered rows |
| FilterPanel.StatusOptions | components/filter-panel.tsx:56 | the statuses offered: the keys of `stats.byStatus` |
| FilterPanel.TypeOptions | components/filter-panel.tsx:87 | the study types offered: the keys of `stats.byType` |
| FilterPanel.OptionsComeFromSearch | components/filter-panel.tsx:56-87 | a value is offered iff it is non-empty and held by some search-filtered record |
| FilterPanel.OptionsIgnoreSelection | components/filter-panel.tsx:56-66 | ticking or unticking boxes does not change the options offered |
| FilterPanel.StatusChecked | components/filter-panel.tsx:60 | a status box is ticked iff the status is selected |
| FilterPanel.TypeChecked | components/filter-panel.tsx:91 | a study-type box is ticked iff the type is selected |
| FilterPanel.ToggleStatus | components/filter-panel.tsx:60-66 | afterwards the box shows the requested state and every other box is unchanged; only the status list is sent; ticking appends the status at the end, even when it is already listed; unticking removes every occurrence and keeps every other entry with its multiplicity, in order |
| FilterPanel.ToggleStudyType | components/filter-panel.tsx:91-97 | the same for the study-type boxes and the type list |
| FilterPanel.SponsorInput | components/filter-panel.tsx:47 | typing sets the sponsor search and nothing else |
| FilterPanel.RemoveTermBadge | components/filter-panel.tsx:124-127 | a term badge sends the same update as the search bar's remove; a valid index shortens the chain by one |
| FilterPanel.RemoveStatusBadge | components/filter-panel.tsx:137-139 | a status badge sends the same update as unticking the status, which is then unticked |
| FilterPanel.RemoveStudyTypeBadge | components/filter-panel.tsx:149-151 | a study-type badge sends the same update as unticking the type, which is then unticked |
| FilterPanel.SponsorBadgeShown | components/filter-panel.tsx:156 | the sponsor badge is rendered only while the sponsor search is non-empty |
| FilterPanel.ClearSponsorBadge | components/filter-panel.tsx:156-160 | the sponsor badge clears the sponsor search, changes nothing else and hides itself |
| Format.Capitalize | lib/format.ts:6 | the first character upper-cased, the rest kept; the empty piece stays empty |
| Format.CapitalizeAll | lib/format.ts:6 | each piece is capitalised, and the number of pieces is kept |
| Format.FormatStatus | lib/format.ts:2-8 | the label is as long as the code, has a space wherever the code has `_` (and, for a code without spaces, nowhere else), the upper-case letter at each word start, lower case elsewhere, and no `_` |
| Format.FormatStudyType | lib/format.ts:41-47 | study types are formatted exactly like statuses |
| Format.TitleWordsAt | lib/format.ts:3-7 | the character-wise reading of the transformation, position by position |
| Format.TitleWordsOfLower | lib/format.ts:3-7 | the character-wise reading of the lower-cased code gives the formatted character at every position |
| Format.JoinCapitalizedSplit | lib/format.ts:3-7 | the split/capitalise/join chain equals the character-wise reading |
| Format.SplitAtSeparator | lib/format.ts:5-7 | a leading underscore gives an empty first piece, shown as a space before the rest |
| Format.SplitAtLetter | lib/format.ts:5-7 | a leading letter starts the first piece and is capitalised exactly when the piece is |
| Format.StatusColor | lib/format.ts:10-39 | yellow iff the upper-cased status is TEMPORARILY_NOT_AVAILABLE or SUSPENDED; gray iff it is none of the ten coloured statuses |
| Format.StatusSwitch | lib/format.ts:14-38 | the `switch` on the upper-cased status, case by case |
| Format.StudyTypeColor | lib/format.ts:49-63 | gray iff the upper-cased type is none of the three listed types |
| Format.StudyTypeSwitch | lib/format.ts:53-62 | the `switch` on the upper-cased study type, case by case |
| Format.StudyTypeColoursDistinct | lib/format.ts:53-59 | the three listed study types get pairwise different colours |
| Format.ColoursIgnoreCase | lib/format.ts:14-53 | both colour lookups ignore the case of their argument |

## Left out

- Unicode case mapping: `toLowerCase` and `toUpperCase` are modelled on ASCII letters only. Every other character maps to itself. `trim` uses the exact ECMAScript white-space and line-terminator set.
- SearchBar.UpdateOperator: requires `index < |terms|`. The operator selects are rendered only for such indices. At `index == |terms|` the JavaScript assignment would append a term `{nextOperator: op}` that has no `value`. At a larger index it would also leave holes before that term. Neither has a counterpart in `seq<SearchTerm>`.
- Evaluator.ComputeStats: the tallies are maps from strings to counts. The source builds them in plain objects `{}` (lib/hooks/useTrials.ts:86-95), which differ for keys that name `Object.prototype` members. For `constructor`, `toString`, `valueOf`, `hasOwnProperty` and similar keys, `(byStatus[k] || 0) + 1` reads the inherited function, so the entry becomes a string ending in `1` rather than a count. For `__proto__`, the assignment goes to the prototype setter, so the key never appears in `Object.entries` and is never offered as an option. Evaluator.TallyCounts, Evaluator.TallySum and FilterPanel.OptionsComeFromSearch therefore hold for the source only when no status or study type is such a name.
- FilterPanel.StatusOptions and FilterPanel.TypeOptions: the offered options are a set, so the order of the check boxes is not modelled. The source lists `Object.entries` of the tallies, which puts integer-like keys first and the rest in order of first occurrence among the search-filtered rows. The order only affects layout.
- FilterPanel.ClearSponsorBadge: requires the badge to be shown, because the click handler exists only then.
- React mechanics (`useState`, `useMemo` dependency tracking, re-rendering): the evaluator is a pure function, recomputed on every read of the store.
- `Partial` updates whose fields are present but `undefined`: a field is either given with a value or absent.
- Missing record fields and `sponsor?.` optional chaining: every field is a string, and the loader in app/api/trials/route.ts puts `""` where the CSV has no value.
- The `conditions` criterion is carried in the criteria record and reset by `clearFilters`, but nothing reads it.
- The page, the API route (file system and CSV parsing), the analytics dashboard (charts and floating-point percentages), the table columns, the study dialog and the layout are not part of this model: they are I/O or presentation.
- The colour helpers are modelled on the upper-cased argument only. What the badges render with those classes is presentation.
