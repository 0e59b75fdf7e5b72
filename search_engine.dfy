/**
 * The interface of the external search engine as the service uses it: the
 * query language (bool queries, range, term and multi-match clauses), sort
 * and paging of a native query, the hits it returns, and what a filter
 * clause means for one stored document.
 */
module SearchEngine {
  import opened Wrappers
  import opened Documents

  /** Numeric fields a range clause can name. */
  datatype NumberField = MinAgeField | MaxAgeField | PriceField

  /** Keyword fields a term clause can name. */
  datatype TermField = CategoryField | TypeField

  /** One query clause. */
  datatype Clause =
    | MultiMatch(query: string, fields: seq<string>, fuzziness: string)
    | NumberRange(numberField: NumberField, gte: Option<real>, lte: Option<real>)
    | Term(termField: TermField, value: string)
    | DateRange(gteInstant: Timestamp)  // a lower bound on nextSessionDate

  /** A bool query: every must clause and every filter clause has to match. */
  datatype BoolQuery = BoolQuery(must: seq<Clause>, filter: seq<Clause>)

  datatype Direction = Asc | Desc
  datatype SortField = PriceSort | NextSessionDateSort
  datatype SortOrder = SortOrder(direction: Direction, field: SortField)

  /** A page request: a zero-based page index and a positive page size. */
  datatype Pageable = Pageable(page: nat, size: nat)

  /** IllegalArgumentException thrown by PageRequest.of. */
  datatype QueryError = IllegalPageRequest

  /** PageRequest.of(page, size): rejects a negative page and a size below one. */
  function PageRequestOf(page: int, size: int): (r: Result<Pageable, QueryError>)
    ensures r.Success? <==> page >= 0 && size >= 1
    ensures r.Success? ==> r.value.page == page && r.value.size == size
  {
    if page < 0 || size < 1 then Failure(IllegalPageRequest) else Success(Pageable(page, size))
  }

  /** A native search query: the bool query, the page and the sort. */
  datatype SearchQuery = SearchQuery(query: BoolQuery, pageable: Pageable, sort: SortOrder)

  /** A match query on one field with a cap on the number of hits. */
  datatype MatchQuery = MatchQuery(field: string, text: string, maxResults: nat)

  datatype SearchHit = SearchHit(content: CourseDocument)
  datatype SearchHits = SearchHits(totalHits: int, hits: seq<SearchHit>)

  /** The value a document holds in a numeric field, if any. */
  function NumberValue(f: NumberField, doc: CourseDocument): Option<real> {
    match f
    case MinAgeField => if doc.minAge.Some? then Some(doc.minAge.value as real) else None
    case MaxAgeField => if doc.maxAge.Some? then Some(doc.maxAge.value as real) else None
    case PriceField => doc.price
  }

  /** The keyword a document holds in a term field, if any. */
  function TermValue(f: TermField, doc: CourseDocument): Option<string> {
    match f
    case CategoryField => doc.category
    case TypeField => if doc.courseType.Some? then Some(TypeName(doc.courseType.value)) else None
  }

  /**
   * Whether a clause matches a document. Range and term clauses never match
   * a document that lacks the field; range bounds are inclusive; term
   * matching on keyword fields is exact. Full-text relevance is the engine's
   * own business and is given as the relation textMatches.
   */
  predicate ClauseHolds(c: Clause, doc: CourseDocument, textMatches: (string, CourseDocument) -> bool) {
    match c
    case MultiMatch(q, _, _) => textMatches(q, doc)
    case NumberRange(f, gte, lte) =>
      && NumberValue(f, doc).Some?
      && (gte.Some? ==> NumberValue(f, doc).value >= gte.value)
      && (lte.Some? ==> NumberValue(f, doc).value <= lte.value)
    case Term(f, v) => TermValue(f, doc) == Some(v)
    case DateRange(t) => doc.nextSessionDate.Some? && doc.nextSessionDate.value >= t
  }

  /** Every clause of cs matches doc. */
  predicate AllHold(cs: seq<Clause>, doc: CourseDocument, textMatches: (string, CourseDocument) -> bool) {
    forall c :: c in cs ==> ClauseHolds(c, doc, textMatches)
  }

  /** A document matches a bool query when all its must and filter clauses match. */
  predicate Matches(q: BoolQuery, doc: CourseDocument, textMatches: (string, CourseDocument) -> bool) {
    AllHold(q.must, doc, textMatches) && AllHold(q.filter, doc, textMatches)
  }
}
