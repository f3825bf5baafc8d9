/** The records the explorer works on: a clinical-trial row, a committed search
    term, the filter criteria and a partial update of them. */
module Types {

  datatype Option<T> = None | Some(value: T)

  /** One row of the dataset. Every field is a string; the loader puts `""`
      where the CSV has no value, so no field is ever missing. */
  datatype Trial = Trial(
    nctNumber: string,
    title: string,
    status: string,
    conditions: string,
    sponsor: string,
    studyType: string,
    url: string)

  /** How a term's match combines with the next one's: `'AND' | 'OR'`. */
  datatype Operator = And | Or

  /** A committed search term; `nextOperator` links it to the term after it. */
  datatype SearchTerm = SearchTerm(value: string, nextOperator: Operator)

  /** The filter criteria. `conditions` is carried but never consulted. */
  datatype Filters = Filters(
    status: seq<string>,
    studyTypes: seq<string>,
    conditions: seq<string>,
    sponsorSearch: string,
    textSearch: string,
    searchTerms: seq<SearchTerm>,
    defaultOperator: Operator)

  /** `Partial<TrialFilters>`: each field either given or absent. */
  datatype Partial = Partial(
    status: Option<seq<string>>,
    studyTypes: Option<seq<string>>,
    conditions: Option<seq<string>>,
    sponsorSearch: Option<string>,
    textSearch: Option<string>,
    searchTerms: Option<seq<SearchTerm>>,
    defaultOperator: Option<Operator>)

  /** The update that gives no field. */
  const NoChange := Partial(None, None, None, None, None, None, None)

  /** The criteria the explorer starts with and returns to when cleared. */
  const InitialFilters := Filters([], [], [], "", "", [], And)
}
