/** The filter state of the `useTrials` hook: one criteria record, replaced by a
    shallow merge on update and by the initial record on clear, from which the
    visible rows and the statistics are derived on every read. */
module Store {
  import opened Types
  import opened Lists
  import opened Evaluator

  /** `{ ...prev, ...partial }`: each field given in `p` replaces the old one. */
  function Merge(prev: Filters, p: Partial): Filters
  {
    Filters(
      if p.status.Some? then p.status.value else prev.status,
      if p.studyTypes.Some? then p.studyTypes.value else prev.studyTypes,
      if p.conditions.Some? then p.conditions.value else prev.conditions,
      if p.sponsorSearch.Some? then p.sponsorSearch.value else prev.sponsorSearch,
      if p.textSearch.Some? then p.textSearch.value else prev.textSearch,
      if p.searchTerms.Some? then p.searchTerms.value else prev.searchTerms,
      if p.defaultOperator.Some? then p.defaultOperator.value else prev.defaultOperator)
  }

  /** `{ ...p, ...q }`: the update that does `p` and then `q`. */
  function Then(p: Partial, q: Partial): Partial
  {
    Partial(
      if q.status.Some? then q.status else p.status,
      if q.studyTypes.Some? then q.studyTypes else p.studyTypes,
      if q.conditions.Some? then q.conditions else p.conditions,
      if q.sponsorSearch.Some? then q.sponsorSearch else p.sponsorSearch,
      if q.textSearch.Some? then q.textSearch else p.textSearch,
      if q.searchTerms.Some? then q.searchTerms else p.searchTerms,
      if q.defaultOperator.Some? then q.defaultOperator else p.defaultOperator)
  }

  /** What an update gives does not depend on the old criteria: two old
      records that agree on every field the update leaves out merge to the
      same result. */
  lemma {:induction false} MergeDependsOnlyOnOmitted(prev: Filters, other: Filters, p: Partial)
    requires p.status.None? ==> prev.status == other.status
    requires p.studyTypes.None? ==> prev.studyTypes == other.studyTypes
    requires p.conditions.None? ==> prev.conditions == other.conditions
    requires p.sponsorSearch.None? ==> prev.sponsorSearch == other.sponsorSearch
    requires p.textSearch.None? ==> prev.textSearch == other.textSearch
    requires p.searchTerms.None? ==> prev.searchTerms == other.searchTerms
    requires p.defaultOperator.None? ==> prev.defaultOperator == other.defaultOperator
    ensures Merge(prev, p) == Merge(other, p)
  {
  }

  /** An update leaves the criteria as they were exactly when every field it
      gives already holds that value. */
  lemma {:induction false} MergeKeepsExactlyWhenRedundant(prev: Filters, p: Partial)
    ensures Merge(prev, p) == prev <==>
      && (p.status.Some? ==> p.status.value == prev.status)
      && (p.studyTypes.Some? ==> p.studyTypes.value == prev.studyTypes)
      && (p.conditions.Some? ==> p.conditions.value == prev.conditions)
      && (p.sponsorSearch.Some? ==> p.sponsorSearch.value == prev.sponsorSearch)
      && (p.textSearch.Some? ==> p.textSearch.value == prev.textSearch)
      && (p.searchTerms.Some? ==> p.searchTerms.value == prev.searchTerms)
      && (p.defaultOperator.Some? ==> p.defaultOperator.value == prev.defaultOperator)
  {
  }

  /** The empty update changes nothing, and merging the same update twice is merging it once. */
  lemma {:induction false} MergeIdentityAndIdempotence(prev: Filters, p: Partial)
    ensures Merge(prev, NoChange) == prev
    ensures Merge(Merge(prev, p), p) == Merge(prev, p)
  {
  }

  /** Two updates in a row are the one update that spreads both. */
  lemma {:induction false} MergeThen(prev: Filters, p: Partial, q: Partial)
    ensures Merge(Merge(prev, p), q) == Merge(prev, Then(p, q))
  {
  }

  /** An update that gives none of the search fields leaves the search-filtered
      rows, and so the statistics, as they were. */
  lemma {:induction false} FacetUpdateKeepsStats(trials: seq<Trial>, prev: Filters, p: Partial)
    requires p.searchTerms.None? && p.textSearch.None? && p.sponsorSearch.None? && p.defaultOperator.None?
    ensures SearchFiltered(trials, Merge(prev, p)) == SearchFiltered(trials, prev)
    ensures TrialStats(trials, Merge(prev, p)) == TrialStats(trials, prev)
  {
    var next := Merge(prev, p);
    assert next.searchTerms == prev.searchTerms && next.textSearch == prev.textSearch;
    assert next.sponsorSearch == prev.sponsorSearch && next.defaultOperator == prev.defaultOperator;
    SearchIgnoresFacets(trials, prev, next);
  }

  /** The hook's state over one loaded dataset. */
  class TrialsState {
    const initialTrials: seq<Trial>
    var filters: Filters

    constructor(initialTrials: seq<Trial>)
      ensures this.initialTrials == initialTrials && filters == InitialFilters
    {
      this.initialTrials := initialTrials;
      filters := InitialFilters;
    }

    /** The visible rows for the current criteria. */
    function Trials(): seq<Trial>
      reads this
    {
      Visible(initialTrials, filters)
    }

    /** The statistics for the current criteria. */
    function Statistics(): Stats
      reads this
    {
      TrialStats(initialTrials, filters)
    }

    /** Recomputes the visible rows and the statistics as the hook does on a read:
        the search filter, the stats pass over its result, then the facet filter. */
    method Read() returns (trials: seq<Trial>, stats: Stats)
      ensures trials == Trials() && stats == Statistics()
    {
      var f := filters;
      var searched := SearchFilterTrials(initialTrials, f);
      stats := ComputeStats(searched);
      trials := Filter(searched, t => PassesFacets(t, f));
    }

    /** `updateFilters(partial)`. */
    method UpdateFilters(p: Partial)
      modifies this
      ensures filters == Merge(old(filters), p)
      ensures p.searchTerms.None? && p.textSearch.None? && p.sponsorSearch.None? && p.defaultOperator.None?
              ==> Statistics() == old(Statistics())
    {
      if p.searchTerms.None? && p.textSearch.None? && p.sponsorSearch.None? && p.defaultOperator.None? {
        FacetUpdateKeepsStats(initialTrials, filters, p);
      }
      filters := Merge(filters, p);
    }

    /** `clearFilters()`: back to the initial criteria, under which every
        record is visible and counted. */
    method ClearFilters()
      modifies this
      ensures filters == InitialFilters
      ensures Trials() == initialTrials && Statistics().totalTrials == |initialTrials|
    {
      filters := InitialFilters;
      NoCriteriaShowsAll(initialTrials, filters);
    }
  }
}
