/** The filter panel's handlers: the status and study-type checkboxes, the
    sponsor input and the active-filter badges. Each returns the update it
    passes to `updateFilters`. */
module FilterPanel {
  import opened Types
  import opened Lists
  import opened Evaluator
  import opened Store
  import SearchBar

  /** The status options offered: the keys of the status tally. */
  function StatusOptions(stats: Stats): set<string>
  {
    stats.byStatus.Keys
  }

  /** The study-type options offered: the keys of the type tally. */
  function TypeOptions(stats: Stats): set<string>
  {
    stats.byType.Keys
  }

  /** A status is offered exactly when it is non-empty and some search-filtered
      record has it; the same holds for study types. */
  lemma {:induction false} OptionsComeFromSearch(trials: seq<Trial>, f: Filters, value: string)
    ensures value in StatusOptions(TrialStats(trials, f)) <==>
      value != "" && exists t :: t in SearchFiltered(trials, f) && t.status == value
    ensures value in TypeOptions(TrialStats(trials, f)) <==>
      value != "" && exists t :: t in SearchFiltered(trials, f) && t.studyType == value
  {
    var searched := SearchFiltered(trials, f);
    TallyCounts(searched, StatusFacet, value);
    TallyCounts(searched, TypeFacet, value);
    FilterMembership(searched, t => KeyOf(t, StatusFacet) == value);
    FilterMembership(searched, t => KeyOf(t, TypeFacet) == value);
    var byStatus := Filter(searched, t => KeyOf(t, StatusFacet) == value);
    var byType := Filter(searched, t => KeyOf(t, TypeFacet) == value);
    if |byStatus| > 0 {
      assert byStatus[0] in byStatus;
    }
    if |byType| > 0 {
      assert byType[0] in byType;
    }
  }

  /** Ticking or unticking boxes never changes which boxes are offered. */
  lemma {:induction false} OptionsIgnoreSelection(trials: seq<Trial>, f: Filters, update: Partial)
    requires update.searchTerms.None? && update.textSearch.None?
    requires update.sponsorSearch.None? && update.defaultOperator.None?
    ensures StatusOptions(TrialStats(trials, Merge(f, update))) == StatusOptions(TrialStats(trials, f))
    ensures TypeOptions(TrialStats(trials, Merge(f, update))) == TypeOptions(TrialStats(trials, f))
  {
    FacetUpdateKeepsStats(trials, f, update);
  }

  /** `checked={filters.status.includes(status)}`. */
  predicate StatusChecked(f: Filters, status: string)
  {
    status in f.status
  }

  /** `checked={filters.studyTypes.includes(type)}`. */
  predicate TypeChecked(f: Filters, studyType: string)
  {
    studyType in f.studyTypes
  }

  /** The status checkbox's `onCheckedChange`: ticking appends the status (even
      when it is already listed), unticking removes every occurrence of it and
      keeps every other entry, with its multiplicity, in order. Afterwards the box shows
      `checked`, every other box shows what it showed before, and only the
      status list is updated. */
  function ToggleStatus(f: Filters, status: string, checked: bool): (update: Partial)
    ensures update == NoChange.(status := update.status) && update.status.Some?
    ensures StatusChecked(Merge(f, update), status) == checked
    ensures forall s :: s != status ==> StatusChecked(Merge(f, update), s) == StatusChecked(f, s)
    ensures checked ==> |update.status.value| == |f.status| + 1 && update.status.value[..|f.status|] == f.status
    ensures checked ==> update.status.value[|f.status|] == status
    ensures !checked ==> IsSubsequence(update.status.value, f.status)
    ensures !checked ==> forall x :: x != status ==> multiset(update.status.value)[x] == multiset(f.status)[x]
  {
    var selected := if checked then f.status + [status] else Without(f.status, status);
    assert checked ==> selected[..|f.status|] == f.status;
    NoChange.(status := Some(selected))
  }

  /** The study-type checkbox's `onCheckedChange`, the same on the type list. */
  function ToggleStudyType(f: Filters, studyType: string, checked: bool): (update: Partial)
    ensures update == NoChange.(studyTypes := update.studyTypes) && update.studyTypes.Some?
    ensures TypeChecked(Merge(f, update), studyType) == checked
    ensures forall s :: s != studyType ==> TypeChecked(Merge(f, update), s) == TypeChecked(f, s)
    ensures checked ==> |update.studyTypes.value| == |f.studyTypes| + 1 && update.studyTypes.value[..|f.studyTypes|] == f.studyTypes
    ensures checked ==> update.studyTypes.value[|f.studyTypes|] == studyType
    ensures !checked ==> IsSubsequence(update.studyTypes.value, f.studyTypes)
    ensures !checked ==> forall x :: x != studyType ==> multiset(update.studyTypes.value)[x] == multiset(f.studyTypes)[x]
  {
    var selected := if checked then f.studyTypes + [studyType] else Without(f.studyTypes, studyType);
    assert checked ==> selected[..|f.studyTypes|] == f.studyTypes;
    NoChange.(studyTypes := Some(selected))
  }

  /** The sponsor input's `onChange`. */
  function SponsorInput(f: Filters, value: string): (update: Partial)
    ensures Merge(f, update) == f.(sponsorSearch := value)
  {
    NoChange.(sponsorSearch := Some(value))
  }

  /** Clicking the badge of search term `index`: the same update as the
      search bar's remove button. */
  function RemoveTermBadge(f: Filters, index: int): (update: Partial)
    ensures update == SearchBar.RemoveTerm(f.searchTerms, index)
    ensures 0 <= index < |f.searchTerms| ==> |Merge(f, update).searchTerms| == |f.searchTerms| - 1
  {
    NoChange.(searchTerms := Some(DropIndex(f.searchTerms, index)))
  }

  /** Clicking a status badge: the same update as unticking its checkbox. */
  function RemoveStatusBadge(f: Filters, status: string): (update: Partial)
    ensures update == ToggleStatus(f, status, false)
    ensures !StatusChecked(Merge(f, update), status)
  {
    NoChange.(status := Some(Without(f.status, status)))
  }

  /** Clicking a study-type badge: the same update as unticking its checkbox. */
  function RemoveStudyTypeBadge(f: Filters, studyType: string): (update: Partial)
    ensures update == ToggleStudyType(f, studyType, false)
    ensures !TypeChecked(Merge(f, update), studyType)
  {
    NoChange.(studyTypes := Some(Without(f.studyTypes, studyType)))
  }

  /** The sponsor badge is shown only while there is a sponsor search. */
  predicate SponsorBadgeShown(f: Filters)
  {
    f.sponsorSearch != ""
  }

  /** Clicking the sponsor badge clears the sponsor search and nothing else,
      which hides the badge. */
  function ClearSponsorBadge(f: Filters): (update: Partial)
    requires SponsorBadgeShown(f)
    ensures Merge(f, update) == f.(sponsorSearch := "")
    ensures !SponsorBadgeShown(Merge(f, update))
  {
    NoChange.(sponsorSearch := Some(""))
  }
}
