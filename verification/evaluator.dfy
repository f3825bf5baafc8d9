/** The filter/search evaluator of the `useTrials` hook: from the dataset and the
    filter criteria it derives the search-filtered rows, the facet tallies over
    them, and the visible rows left after the status and study-type facets. */
module Evaluator {
  import opened Types
  import opened Text
  import opened Lists

  /** The text a record is searched in: title, conditions, sponsor and NCT
      number joined by single spaces, lower-cased. */
  function SearchableText(t: Trial): string
  {
    Lower(t.title + " " + t.conditions + " " + t.sponsor + " " + t.nctNumber)
  }

  /** Every field, lower-cased, occurs in the searchable text, which is as long
      as the four fields and the three separating spaces. */
  lemma {:induction false} SearchableTextHoldsFields(t: Trial)
    ensures |SearchableText(t)| == |t.title| + |t.conditions| + |t.sponsor| + |t.nctNumber| + 3
    ensures Includes(SearchableText(t), Lower(t.title)) && Includes(SearchableText(t), Lower(t.conditions))
    ensures Includes(SearchableText(t), Lower(t.sponsor)) && Includes(SearchableText(t), Lower(t.nctNumber))
  {
    var text := SearchableText(t);
    var s1 := t.title + " ";
    var s2 := s1 + t.conditions;
    var s3 := s2 + " ";
    var s4 := s3 + t.sponsor;
    var s5 := s4 + " ";
    LowerParts(s5, t.nctNumber);
    LowerParts(s4, " ");
    LowerParts(s3, t.sponsor);
    LowerParts(s2, " ");
    LowerParts(s1, t.conditions);
    LowerParts(t.title, " ");
    IncludesTransitive(text, Lower(s5), Lower(s4));
    IncludesTransitive(text, Lower(s4), Lower(s3));
    IncludesTransitive(text, Lower(s4), Lower(t.sponsor));
    IncludesTransitive(text, Lower(s3), Lower(s2));
    IncludesTransitive(text, Lower(s2), Lower(s1));
    IncludesTransitive(text, Lower(s2), Lower(t.conditions));
    IncludesTransitive(text, Lower(s1), Lower(t.title));
  }

  /** Both lower-cased halves of a string occur in the lower-cased string. */
  lemma {:induction false} LowerParts(a: string, b: string)
    ensures Includes(Lower(a + b), Lower(a)) && Includes(Lower(a + b), Lower(b))
  {
    LowerConcat(a, b);
    IncludesInConcat([], Lower(a), Lower(b), Lower(a));
    IncludesInConcat(Lower(a), Lower(b), [], Lower(b));
    assert OccursAt(Lower(a), Lower(a), 0) && OccursAt(Lower(b), Lower(b), 0);
    assert [] + Lower(a) + Lower(b) == Lower(a) + Lower(b) + [] == Lower(a + b);
  }

  /** `searchableText.includes(needle.toLowerCase())`. */
  function Hit(text: string, needle: string): bool
  {
    Includes(text, Lower(needle))
  }

  /** One step of the chain: `matches && next` for AND, `matches || next` for OR. */
  function Combine(matches: bool, next: bool, op: Operator): bool
  {
    match op
    case And => matches && next
    case Or => matches || next
  }

  /** The committed term chain folded strictly left to right: the first term's
      hit, then each next term's hit combined in with the operator of the term
      before it. The last term's own operator is never used. */
  function Chain(text: string, terms: seq<SearchTerm>): bool
    requires |terms| >= 1
    decreases |terms|
  {
    if |terms| == 1 then Hit(text, terms[0].value)
    else Combine(Chain(text, terms[..|terms| - 1]), Hit(text, terms[|terms| - 1].value), terms[|terms| - 2].nextOperator)
  }

  /** The text stage: the chain (combined once more with the in-progress text
      under the default operator), or the in-progress text alone, or nothing. */
  predicate PassesText(t: Trial, f: Filters)
  {
    var text := SearchableText(t);
    if |f.searchTerms| > 0 then
      var matches := Chain(text, f.searchTerms);
      if f.textSearch != "" then Combine(matches, Hit(text, f.textSearch), f.defaultOperator) else matches
    else if f.textSearch != "" then Hit(text, f.textSearch)
    else true
  }

  /** The sponsor stage: a non-empty sponsor search must occur in the sponsor,
      ignoring case. */
  predicate PassesSponsor(t: Trial, f: Filters)
  {
    f.sponsorSearch == "" || Includes(Lower(t.sponsor), Lower(f.sponsorSearch))
  }

  /** The predicate handed to `initialTrials.filter`. */
  predicate PassesSearch(t: Trial, f: Filters)
  {
    PassesText(t, f) && PassesSponsor(t, f)
  }

  /** The category facet stage: an empty selection imposes nothing, otherwise
      the record's value must be one of the selected ones. */
  predicate PassesFacets(t: Trial, f: Filters)
  {
    (|f.status| == 0 || t.status in f.status) && (|f.studyTypes| == 0 || t.studyType in f.studyTypes)
  }

  /** `searchFilteredTrials`: the records passing the text and sponsor stages,
      in dataset order. */
  function SearchFiltered(trials: seq<Trial>, f: Filters): (r: seq<Trial>)
    ensures forall t :: t in r <==> t in trials && PassesSearch(t, f)
    ensures forall t :: multiset(r)[t] == if PassesSearch(t, f) then multiset(trials)[t] else 0
    ensures IsSubsequence(r, trials)
  {
    FilterMembership(trials, t => PassesSearch(t, f));
    FilterCounts(trials, t => PassesSearch(t, f));
    FilterIsSubsequence(trials, t => PassesSearch(t, f));
    Filter(trials, t => PassesSearch(t, f))
  }

  /** `trials`: the search-filtered records that also pass the facet stage, in
      the same order. */
  function Visible(trials: seq<Trial>, f: Filters): (r: seq<Trial>)
    ensures forall t :: t in r <==> t in trials && PassesSearch(t, f) && PassesFacets(t, f)
    ensures forall t :: multiset(r)[t] == if PassesFacets(t, f) then multiset(SearchFiltered(trials, f))[t] else 0
    ensures IsSubsequence(r, SearchFiltered(trials, f))
  {
    var searched := SearchFiltered(trials, f);
    FilterMembership(searched, t => PassesFacets(t, f));
    FilterCounts(searched, t => PassesFacets(t, f));
    FilterIsSubsequence(searched, t => PassesFacets(t, f));
    Filter(searched, t => PassesFacets(t, f))
  }

  /** The per-record test of the source, in its order of checks. */
  method MatchesSearch(t: Trial, f: Filters) returns (keep: bool)
    ensures keep == PassesSearch(t, f)
  {
    var text := SearchableText(t);
    var terms := f.searchTerms;
    if |terms| > 0 {
      var matches := FoldChain(text, terms);
      if f.textSearch != "" {
        var currentMatches := Hit(text, f.textSearch);
        if f.defaultOperator == And {
          matches := matches && currentMatches;
        } else {
          matches := matches || currentMatches;
        }
        if !matches {
          return false;
        }
      }
      if !matches {
        return false;
      }
    } else if f.textSearch != "" {
      if !Hit(text, f.textSearch) {
        return false;
      }
    }
    if f.sponsorSearch != "" && !Includes(Lower(t.sponsor), Lower(f.sponsorSearch)) {
      return false;
    }
    return true;
  }

  /** The loop over adjacent term pairs: starting from the first term's hit,
      each next term's hit is combined in with the operator of the term before it. */
  method FoldChain(text: string, terms: seq<SearchTerm>) returns (matches: bool)
    requires |terms| >= 1
    ensures matches == Chain(text, terms)
  {
    matches := Hit(text, terms[0].value);
    for i := 0 to |terms| - 1
      invariant matches == Chain(text, terms[..i + 1])
    {
      var nextMatches := Hit(text, terms[i + 1].value);
      assert terms[..i + 2][..i + 1] == terms[..i + 1];
      if terms[i].nextOperator == And {
        matches := matches && nextMatches;
      } else {
        matches := matches || nextMatches;
      }
    }
    assert terms[..|terms|] == terms;
  }

  /** `initialTrials.filter(...)` run record by record. */
  method SearchFilterTrials(trials: seq<Trial>, f: Filters) returns (searched: seq<Trial>)
    ensures searched == SearchFiltered(trials, f)
  {
    searched := [];
    for i := 0 to |trials|
      invariant searched == Filter(trials[..i], t => PassesSearch(t, f))
    {
      var keep := MatchesSearch(trials[i], f);
      FilterAppend(trials[..i], [trials[i]], t => PassesSearch(t, f));
      assert trials[..i + 1] == trials[..i] + [trials[i]];
      assert Filter([trials[i]], t => PassesSearch(t, f)) == if keep then [trials[i]] else [];
      if keep {
        searched := searched + [trials[i]];
      }
    }
    assert trials[..|trials|] == trials;
  }

  // ---------------------------------------------------------------------------
  // Chain properties

  /** The operator stored on the last term does not affect the chain. */
  lemma {:induction false} ChainIgnoresLastOperator(text: string, terms: seq<SearchTerm>, op: Operator)
    requires |terms| >= 1
    ensures Chain(text, terms[|terms| - 1 := terms[|terms| - 1].(nextOperator := op)]) == Chain(text, terms)
  {
    var n := |terms|;
    var changed := terms[n - 1 := terms[n - 1].(nextOperator := op)];
    if n > 1 {
      assert changed[..n - 1] == terms[..n - 1];
      assert changed[n - 2] == terms[n - 2];
    }
  }

  /** Appending a term combines the chain so far with the new term's hit, using
      the operator of the term that was last. */
  lemma {:induction false} ChainAppend(text: string, terms: seq<SearchTerm>, next: SearchTerm)
    requires |terms| >= 1
    ensures Chain(text, terms + [next]) == Combine(Chain(text, terms), Hit(text, next.value), terms[|terms| - 1].nextOperator)
  {
    assert (terms + [next])[..|terms|] == terms;
  }

  /** A chain whose linking operators are all AND holds exactly when every term is found. */
  lemma {:induction false} ChainAllAnd(text: string, terms: seq<SearchTerm>)
    requires |terms| >= 1
    requires forall i :: 0 <= i < |terms| - 1 ==> terms[i].nextOperator == And
    ensures Chain(text, terms) <==> forall i :: 0 <= i < |terms| ==> Hit(text, terms[i].value)
  {
    if |terms| > 1 {
      var init := terms[..|terms| - 1];
      ChainAllAnd(text, init);
      assert forall i :: 0 <= i < |init| ==> init[i] == terms[i];
    }
  }

  /** A chain whose linking operators are all OR holds exactly when some term is found. */
  lemma {:induction false} ChainAllOr(text: string, terms: seq<SearchTerm>)
    requires |terms| >= 1
    requires forall i :: 0 <= i < |terms| - 1 ==> terms[i].nextOperator == Or
    ensures Chain(text, terms) <==> exists i :: 0 <= i < |terms| && Hit(text, terms[i].value)
  {
    if |terms| > 1 {
      var init := terms[..|terms| - 1];
      ChainAllOr(text, init);
      assert forall i :: 0 <= i < |init| ==> init[i] == terms[i];
    }
  }

  /** `[A OR, B AND] + C` is `(A || B) && C`, with the in-progress text C under
      an AND default operator: no operator precedence. */
  lemma {:induction false} LeftToRightNoPrecedence(t: Trial, f: Filters, a: string, b: string, opB: Operator)
    requires f.searchTerms == [SearchTerm(a, Or), SearchTerm(b, opB)]
    requires f.textSearch != "" && f.defaultOperator == And && f.sponsorSearch == ""
    ensures PassesSearch(t, f) <==>
      var text := SearchableText(t);
      (Hit(text, a) || Hit(text, b)) && Hit(text, f.textSearch)
  {
    var text := SearchableText(t);
    assert f.searchTerms[..1] == [SearchTerm(a, Or)];
    assert Chain(text, f.searchTerms) == (Hit(text, a) || Hit(text, b));
    assert PassesSponsor(t, f);
    assert PassesText(t, f) == ((Hit(text, a) || Hit(text, b)) && Hit(text, f.textSearch));
  }

  /** The fold is not `A || (B && C)`: a text holding only A is rejected. */
  lemma {:induction false} NotRightGrouped()
    ensures !Chain("a", [SearchTerm("a", Or), SearchTerm("b", And), SearchTerm("c", And)])
    ensures Hit("a", "a") || (Hit("a", "b") && Hit("a", "c"))
  {
    var terms := [SearchTerm("a", Or), SearchTerm("b", And), SearchTerm("c", And)];
    assert terms[..2] == [SearchTerm("a", Or), SearchTerm("b", And)];
    assert terms[..2][..1] == [SearchTerm("a", Or)];
    assert Lower("c") == "c";
    assert !Includes("a", "c");
    assert Lower("a") == "a";
    assert OccursAt("a", "a", 0);
  }

  /** With a single committed term and nothing else, a record passes exactly
      when the term occurs in its searchable text, whatever the term's operator. */
  lemma {:induction false} SingleTerm(t: Trial, f: Filters, term: SearchTerm)
    requires f.searchTerms == [term] && f.textSearch == "" && f.sponsorSearch == ""
    ensures PassesSearch(t, f) <==> Hit(SearchableText(t), term.value)
  {
  }

  /** Finding a needle in any one field is enough for the record's text to hit it. */
  lemma {:induction false} FieldHit(t: Trial, needle: string)
    requires Includes(Lower(t.title), Lower(needle)) || Includes(Lower(t.conditions), Lower(needle))
          || Includes(Lower(t.sponsor), Lower(needle)) || Includes(Lower(t.nctNumber), Lower(needle))
    ensures Hit(SearchableText(t), needle)
  {
    var text := SearchableText(t);
    var n := Lower(needle);
    SearchableTextHoldsFields(t);
    if Includes(Lower(t.title), n) {
      IncludesTransitive(text, Lower(t.title), n);
    } else if Includes(Lower(t.conditions), n) {
      IncludesTransitive(text, Lower(t.conditions), n);
    } else if Includes(Lower(t.sponsor), n) {
      IncludesTransitive(text, Lower(t.sponsor), n);
    } else {
      IncludesTransitive(text, Lower(t.nctNumber), n);
    }
  }

  /** The sponsor stage ignores the case of the search string. */
  lemma {:induction false} SponsorIgnoresCase(t: Trial, f: Filters, search: string)
    requires Lower(search) == Lower(f.sponsorSearch)
    ensures PassesSponsor(t, f.(sponsorSearch := search)) == PassesSponsor(t, f)
  {
  }

  /** The sponsor search "acme" keeps a record sponsored by "Acme Corp". */
  lemma {:induction false} SponsorKeepsOtherCase(f: Filters, acme: Trial)
    requires f.sponsorSearch == "acme" && acme.sponsor == "Acme Corp"
    ensures PassesSponsor(acme, f)
  {
    assert Lower("acme") == "acme" == Lower("Acme");
    assert OccursAt("acme", "acme", 0);
    assert "Acme" + " Corp" == "Acme Corp";
    LowerConcat("Acme", " Corp");
    IncludesInConcat([], "acme", Lower(" Corp"), "acme");
    assert [] + "acme" + Lower(" Corp") == Lower("Acme Corp");
  }

  /** The sponsor search "acme" drops a record sponsored by "Other". */
  lemma {:induction false} SponsorDropsMismatch(f: Filters, other: Trial)
    requires f.sponsorSearch == "acme" && other.sponsor == "Other"
    ensures !PassesSponsor(other, f)
  {
    assert Lower("acme") == "acme";
    assert Lower("Other") == "other";
    forall i: nat ensures !OccursAt("other", "acme", i) {
      if i <= 1 {
        assert "other"[i] != 'a';
      }
    }
  }

  // ---------------------------------------------------------------------------
  // Whole-dataset properties

  /** With no term, no in-progress text, no sponsor search and no facet
      selection, every record is shown, in dataset order. */
  lemma {:induction false} NoCriteriaShowsAll(trials: seq<Trial>, f: Filters)
    requires f.searchTerms == [] && f.textSearch == "" && f.sponsorSearch == ""
    requires f.status == [] && f.studyTypes == []
    ensures SearchFiltered(trials, f) == trials
    ensures Visible(trials, f) == trials
  {
    FilterAll(trials, t => PassesSearch(t, f));
    FilterAll(trials, t => PassesFacets(t, f));
  }

  /** The search-filtered rows depend only on the terms, the in-progress text,
      the sponsor search and the default operator: the facet selections and the
      unused `conditions` list take no part. */
  lemma {:induction false} SearchIgnoresFacets(trials: seq<Trial>, f: Filters, g: Filters)
    requires g.searchTerms == f.searchTerms && g.textSearch == f.textSearch
    requires g.sponsorSearch == f.sponsorSearch && g.defaultOperator == f.defaultOperator
    ensures SearchFiltered(trials, g) == SearchFiltered(trials, f)
  {
    forall t | t in trials ensures PassesSearch(t, g) == PassesSearch(t, f) {
      assert PassesText(t, g) == PassesText(t, f);
      assert PassesSponsor(t, g) == PassesSponsor(t, f);
    }
    FilterAgree(trials, t => PassesSearch(t, g), t => PassesSearch(t, f));
  }

  // ---------------------------------------------------------------------------
  // Facet tallies

  /** The two categorical fields the tallies are kept for. */
  datatype Facet = StatusFacet | TypeFacet

  function KeyOf(t: Trial, facet: Facet): string
  {
    match facet
    case StatusFacet => t.status
    case TypeFacet => t.studyType
  }

  /** `stats`: the number of search-filtered records and the two tallies. */
  datatype Stats = Stats(totalTrials: nat, byStatus: map<string, nat>, byType: map<string, nat>)

  /** `if (key) tally[key] = (tally[key] || 0) + 1`. */
  function Bump(tally: map<string, nat>, key: string): map<string, nat>
  {
    if key == "" then tally else tally[key := (if key in tally then tally[key] else 0) + 1]
  }

  /** The tally the `forEach` builds over `trials` for one facet. */
  function Tally(trials: seq<Trial>, facet: Facet): map<string, nat>
  {
    if trials == [] then map[] else Bump(Tally(trials[..|trials| - 1], facet), KeyOf(trials[|trials| - 1], facet))
  }

  /** The statistics over a sequence of (search-filtered) records. */
  function StatsOf(searched: seq<Trial>): Stats
  {
    Stats(|searched|, Tally(searched, StatusFacet), Tally(searched, TypeFacet))
  }

  /** The statistics the hook exposes for a dataset and criteria. */
  function TrialStats(trials: seq<Trial>, f: Filters): Stats
  {
    StatsOf(SearchFiltered(trials, f))
  }

  /** The number of records whose facet value is `key`. */
  function Count(trials: seq<Trial>, facet: Facet, key: string): nat
  {
    |Filter(trials, t => KeyOf(t, facet) == key)|
  }

  /** The number of records whose facet value is non-empty. */
  function CountNonEmpty(trials: seq<Trial>, facet: Facet): nat
  {
    |Filter(trials, t => KeyOf(t, facet) != "")|
  }

  /** The stats pass, with its `forEach` over the search-filtered records. */
  method ComputeStats(searched: seq<Trial>) returns (stats: Stats)
    ensures stats == StatsOf(searched)
  {
    var byStatus: map<string, nat> := map[];
    var byType: map<string, nat> := map[];
    for i := 0 to |searched|
      invariant byStatus == Tally(searched[..i], StatusFacet)
      invariant byType == Tally(searched[..i], TypeFacet)
    {
      var trial := searched[i];
      assert searched[..i + 1][..i] == searched[..i];
      if trial.status != "" {
        byStatus := byStatus[trial.status := (if trial.status in byStatus then byStatus[trial.status] else 0) + 1];
      }
      if trial.studyType != "" {
        byType := byType[trial.studyType := (if trial.studyType in byType then byType[trial.studyType] else 0) + 1];
      }
    }
    assert searched[..|searched|] == searched;
    stats := Stats(|searched|, byStatus, byType);
  }

  /** A value is a key of the tally exactly when it is non-empty and some record
      carries it, and its entry is the number of records that carry it. */
  lemma {:induction false} TallyCounts(trials: seq<Trial>, facet: Facet, key: string)
    ensures key in Tally(trials, facet) <==> key != "" && Count(trials, facet, key) > 0
    ensures key in Tally(trials, facet) ==> Tally(trials, facet)[key] == Count(trials, facet, key)
  {
    if trials != [] {
      var init, last := trials[..|trials| - 1], trials[|trials| - 1];
      assert init + [last] == trials;
      assert Tally(trials, facet) == Bump(Tally(init, facet), KeyOf(last, facet));
      assert Count(trials, facet, key) == Count(init, facet, key) + (if KeyOf(last, facet) == key then 1 else 0) by {
        FilterAppend(init, [last], t => KeyOf(t, facet) == key);
        assert |Filter([last], t => KeyOf(t, facet) == key)| == if KeyOf(last, facet) == key then 1 else 0;
      }
      TallyCounts(init, facet, key);
    }
  }

  /** A key of the tally is the facet value of some record. */
  lemma {:induction false} TallyKeysOccur(trials: seq<Trial>, facet: Facet, key: string)
    requires key in Tally(trials, facet)
    ensures key != "" && exists t :: t in trials && KeyOf(t, facet) == key
  {
    TallyCounts(trials, facet, key);
    var matching := Filter(trials, t => KeyOf(t, facet) == key);
    assert matching[0] in matching;
  }

  /** The sum of the values of a tally, taking the keys in any order. */
  ghost function SumOver(m: map<string, nat>, keys: set<string>): nat
    requires keys <= m.Keys
    decreases keys
  {
    if keys == {} then 0 else var k :| k in keys; m[k] + SumOver(m, keys - {k})
  }

  /** The sum does not depend on which key is taken first. */
  lemma {:induction false} SumOverRemove(m: map<string, nat>, keys: set<string>, k: string)
    requires keys <= m.Keys && k in keys
    ensures SumOver(m, keys) == m[k] + SumOver(m, keys - {k})
    decreases keys
  {
    var j :| j in keys && SumOver(m, keys) == m[j] + SumOver(m, keys - {j});
    if j != k {
      SumOverRemove(m, keys - {j}, k);
      SumOverRemove(m, keys - {k}, j);
      assert keys - {j} - {k} == keys - {k} - {j};
    }
  }

  /** Two tallies that agree on the summed keys have the same sum. */
  lemma {:induction false} SumOverAgree(m1: map<string, nat>, m2: map<string, nat>, keys: set<string>)
    requires keys <= m1.Keys && keys <= m2.Keys
    requires forall k :: k in keys ==> m1[k] == m2[k]
    ensures SumOver(m1, keys) == SumOver(m2, keys)
    decreases keys
  {
    if keys != {} {
      var k :| k in keys;
      SumOverRemove(m1, keys, k);
      SumOverRemove(m2, keys, k);
      SumOverAgree(m1, m2, keys - {k});
    }
  }

  /** Counting one more record raises the sum by one, unless its value is empty. */
  lemma {:induction false} BumpSum(m: map<string, nat>, key: string)
    ensures SumOver(Bump(m, key), Bump(m, key).Keys) == SumOver(m, m.Keys) + (if key == "" then 0 else 1)
  {
    if key != "" {
      var b := Bump(m, key);
      SumOverRemove(b, b.Keys, key);
      SumOverAgree(b, m, m.Keys - {key});
      if key in m {
        SumOverRemove(m, m.Keys, key);
      } else {
        assert b.Keys - {key} == m.Keys - {key} == m.Keys;
      }
    }
  }

  /** The values of a tally add up to the number of records with a non-empty value. */
  lemma {:induction false} TallySum(trials: seq<Trial>, facet: Facet)
    ensures SumOver(Tally(trials, facet), Tally(trials, facet).Keys) == CountNonEmpty(trials, facet)
  {
    if trials != [] {
      var init, last := trials[..|trials| - 1], trials[|trials| - 1];
      assert init + [last] == trials;
      assert Tally(trials, facet) == Bump(Tally(init, facet), KeyOf(last, facet));
      assert CountNonEmpty(trials, facet) == CountNonEmpty(init, facet) + (if KeyOf(last, facet) == "" then 0 else 1) by {
        FilterAppend(init, [last], t => KeyOf(t, facet) != "");
        assert |Filter([last], t => KeyOf(t, facet) != "")| == if KeyOf(last, facet) == "" then 0 else 1;
      }
      TallySum(init, facet);
      BumpSum(Tally(init, facet), KeyOf(last, facet));
    }
  }

  /** The statistics count the search-filtered records: the total is their
      number, and the status and type tallies sum to the number of them with a
      non-empty status and type. */
  lemma {:induction false} StatsTotals(trials: seq<Trial>, f: Filters)
    ensures TrialStats(trials, f).totalTrials == |SearchFiltered(trials, f)|
    ensures SumOver(TrialStats(trials, f).byStatus, TrialStats(trials, f).byStatus.Keys)
            == CountNonEmpty(SearchFiltered(trials, f), StatusFacet)
    ensures SumOver(TrialStats(trials, f).byType, TrialStats(trials, f).byType.Keys)
            == CountNonEmpty(SearchFiltered(trials, f), TypeFacet)
  {
    TallySum(SearchFiltered(trials, f), StatusFacet);
    TallySum(SearchFiltered(trials, f), TypeFacet);
  }

  /** Selecting statuses or study types never changes the statistics. */
  lemma {:induction false} StatsIgnoreFacets(trials: seq<Trial>, f: Filters, g: Filters)
    requires g.searchTerms == f.searchTerms && g.textSearch == f.textSearch
    requires g.sponsorSearch == f.sponsorSearch && g.defaultOperator == f.defaultOperator
    ensures TrialStats(trials, g) == TrialStats(trials, f)
  {
    SearchIgnoresFacets(trials, f, g);
  }
}
