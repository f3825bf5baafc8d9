/** The search bar's term-chain editing. Each handler returns the update it
    sends to the filter state: `onTermsChange(terms)` becomes a `searchTerms`
    update and `onSearch(text)` a `textSearch` update. */
module SearchBar {
  import opened Types
  import opened Text
  import opened Lists
  import opened Evaluator
  import opened Store

  /** `update` is what `addTerm` sends for a value that is not blank: the chain
      grows by the trimmed value under the default operator, the term that was
      last now links to it with the default operator, every earlier term is
      kept, and the in-progress text is cleared. Nothing else is updated. */
  predicate Commits(terms: seq<SearchTerm>, value: string, op: Operator, update: Partial)
  {
    && Trim(value) != ""
    && update.searchTerms.Some?
    && update == NoChange.(searchTerms := update.searchTerms, textSearch := Some(""))
    && var chain := update.searchTerms.value;
       && |chain| == |terms| + 1
       && chain[|terms|] == SearchTerm(Trim(value), op)
       && (|terms| > 0 ==> chain[|terms| - 1] == SearchTerm(terms[|terms| - 1].value, op))
       && forall i :: 0 <= i < |terms| - 1 ==> chain[i] == terms[i]
  }

  /** `addTerm()`: commits the in-progress text as a new term, or does nothing
      when it is blank. */
  method AddTerm(value: string, terms: seq<SearchTerm>, defaultOperator: Operator) returns (update: Partial)
    ensures Trim(value) == "" ==> update == NoChange
    ensures Trim(value) != "" ==> Commits(terms, value, defaultOperator, update)
  {
    var trimmed := Trim(value);
    if trimmed == "" {
      return NoChange;
    }
    var newTerm := SearchTerm(trimmed, defaultOperator);
    var chain: seq<SearchTerm>;
    if |terms| > 0 {
      var updated := Relink(terms, |terms| - 1, defaultOperator);
      chain := updated + [newTerm];
    } else {
      chain := [newTerm];
    }
    update := Then(NoChange.(searchTerms := Some(chain)), NoChange.(textSearch := Some("")));
  }

  /** `handleKeyDown`: Enter commits the in-progress text under the same
      condition as `addTerm`; any other key sends nothing. */
  method HandleKeyDown(key: string, value: string, terms: seq<SearchTerm>, defaultOperator: Operator)
    returns (update: Partial)
    ensures key != "Enter" || Trim(value) == "" ==> update == NoChange
    ensures key == "Enter" && Trim(value) != "" ==> Commits(terms, value, defaultOperator, update)
  {
    update := NoChange;
    if key == "Enter" && Trim(value) != "" {
      update := AddTerm(value, terms, defaultOperator);
    }
  }

  /** `removeTerm(index)`: the chain without the term at `index`; an index
      outside the chain leaves it as it was. */
  function RemoveTerm(terms: seq<SearchTerm>, index: int): (update: Partial)
    ensures update == NoChange.(searchTerms := update.searchTerms) && update.searchTerms.Some?
    ensures 0 <= index < |terms| ==>
      && |update.searchTerms.value| == |terms| - 1
      && (forall i :: 0 <= i < index ==> update.searchTerms.value[i] == terms[i])
      && (forall i :: index < i < |terms| ==> update.searchTerms.value[i - 1] == terms[i])
    ensures !(0 <= index < |terms|) ==> update.searchTerms.value == terms
  {
    NoChange.(searchTerms := Some(DropIndex(terms, index)))
  }

  /** `updateOperator(index, op)`: sets the operator linking term `index` to the
      next one and keeps everything else. The operator selects exist only for
      terms that have a next one. */
  method UpdateOperator(terms: seq<SearchTerm>, index: nat, op: Operator) returns (update: Partial)
    requires index < |terms|
    ensures update == NoChange.(searchTerms := update.searchTerms) && update.searchTerms.Some?
    ensures |update.searchTerms.value| == |terms|
    ensures update.searchTerms.value[index] == SearchTerm(terms[index].value, op)
    ensures forall i :: 0 <= i < |terms| && i != index ==> update.searchTerms.value[i] == terms[i]
  {
    var updated := Relink(terms, index, op);
    update := NoChange.(searchTerms := Some(updated));
  }

  /** `const copy = [...terms]; copy[index] = { ...copy[index], nextOperator: op }`:
      a copy of the chain in which only term `index` is linked onward by `op`. */
  method Relink(terms: seq<SearchTerm>, index: nat, op: Operator) returns (updated: seq<SearchTerm>)
    requires index < |terms|
    ensures |updated| == |terms|
    ensures updated[index] == SearchTerm(terms[index].value, op)
    ensures forall i :: 0 <= i < |terms| && i != index ==> updated[i] == terms[i]
  {
    var copy := new SearchTerm[|terms|](i requires 0 <= i < |terms| => terms[i]);
    copy[index] := copy[index].(nextOperator := op);
    updated := copy[..];
  }

  /** Committing an in-progress text that has no surrounding white space does
      not change which records pass: the text was already the chain's trailing
      term under the default operator, and it stays so as a committed term. */
  lemma {:induction false} CommitKeepsSearch(t: Trial, f: Filters, update: Partial)
    requires Trim(f.textSearch) == f.textSearch
    requires Commits(f.searchTerms, f.textSearch, f.defaultOperator, update)
    ensures PassesSearch(t, Merge(f, update)) == PassesSearch(t, f)
  {
    var g := Merge(f, update);
    var text := SearchableText(t);
    var terms, value, op := f.searchTerms, f.textSearch, f.defaultOperator;
    var chain := update.searchTerms.value;
    assert g.searchTerms == chain && g.textSearch == "" && g.sponsorSearch == f.sponsorSearch;
    if |terms| == 0 {
      assert chain == [SearchTerm(value, op)];
    } else {
      var n := |terms|;
      var relinked := terms[n - 1 := terms[n - 1].(nextOperator := op)];
      assert chain == relinked + [SearchTerm(value, op)];
      ChainAppend(text, relinked, SearchTerm(value, op));
      ChainIgnoresLastOperator(text, terms, op);
      assert PassesText(t, g) == PassesText(t, f);
    }
  }

  /** Hence committing leaves the search-filtered rows as they were. */
  lemma {:induction false} CommitKeepsRows(trials: seq<Trial>, f: Filters, update: Partial)
    requires Trim(f.textSearch) == f.textSearch
    requires Commits(f.searchTerms, f.textSearch, f.defaultOperator, update)
    ensures SearchFiltered(trials, Merge(f, update)) == SearchFiltered(trials, f)
  {
    var g := Merge(f, update);
    forall t | t in trials ensures PassesSearch(t, g) == PassesSearch(t, f) {
      CommitKeepsSearch(t, f, update);
    }
    FilterAgree(trials, t => PassesSearch(t, g), t => PassesSearch(t, f));
  }
}
