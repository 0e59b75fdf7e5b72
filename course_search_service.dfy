/**
 * CourseSearchService: turns a search request into a bool query with sort
 * and paging, runs it through the engine and shapes the results, and
 * post-processes autocomplete hits into a short list of distinct titles.
 */
module CourseSearchService {
  import opened Wrappers
  import opened JavaStrings
  import opened Documents
  import opened Requests
  import opened SearchEngine
  import opened Streams

  // ---------------------------------------------------------------------
  // Query builders (the engine client's mutable builders)
  // ---------------------------------------------------------------------

  /** BoolQuery.Builder: accumulates must and filter clauses in call order. */
  class BoolQueryBuilder {
    var must: seq<Clause>
    var filter: seq<Clause>

    constructor ()
      ensures must == [] && filter == []
    {
      must, filter := [], [];
    }

    method Must(c: Clause)
      modifies this
      ensures must == old(must) + [c] && filter == old(filter)
    {
      must := must + [c];
    }

    method Filter(c: Clause)
      modifies this
      ensures filter == old(filter) + [c] && must == old(must)
    {
      filter := filter + [c];
    }

    /** build(): a bool query with the clauses added so far, in call order. */
    function Build(): (q: BoolQuery)
      reads this
      ensures q.must == must && q.filter == filter
    {
      BoolQuery(must, filter)
    }
  }

  /** NumberRangeQuery.Builder: a field with independently optional inclusive bounds. */
  class NumberRangeBuilder {
    var field: NumberField
    var gte: Option<real>
    var lte: Option<real>

    constructor (field: NumberField)
      ensures this.field == field && gte == None && lte == None
    {
      this.field, gte, lte := field, None, None;
    }

    method Gte(v: real)
      modifies this
      ensures gte == Some(v) && lte == old(lte) && field == old(field)
    {
      gte := Some(v);
    }

    method Lte(v: real)
      modifies this
      ensures lte == Some(v) && gte == old(gte) && field == old(field)
    {
      lte := Some(v);
    }

    /** build(): a range on the chosen field with exactly the bounds that were set. */
    function Build(): (c: Clause)
      reads this
      ensures c.NumberRange? && c.numberField == field && c.gte == gte && c.lte == lte
    {
      NumberRange(field, gte, lte)
    }
  }

  // ---------------------------------------------------------------------
  // The clauses of a search query
  // ---------------------------------------------------------------------

  /** A nullable string that is present and not blank after trim(). */
  predicate HasText(s: Option<string>): (b: bool)
    ensures b <==> s.Some? && exists i :: 0 <= i < |s.value| && !IsTrimmable(s.value[i])
  {
    s.Some? && !IsBlank(s.value)
  }

  const FullTextFields: seq<string> := ["title^2", "description"]
  const FullTextFuzziness: string := "AUTO"

  /** Multi-match on the title (boosted twice) and the description, with automatic fuzziness. */
  function FullTextClause(q: string): Clause {
    MultiMatch(q, FullTextFields, FullTextFuzziness)
  }

  /** A requested minimum age keeps courses whose maximum age reaches it. */
  function MinAgeClause(a: Int32): Clause {
    NumberRange(MaxAgeField, Some(a as real), None)
  }

  /** A requested maximum age keeps courses whose minimum age does not exceed it. */
  function MaxAgeClause(b: Int32): Clause {
    NumberRange(MinAgeField, None, Some(b as real))
  }

  function CategoryClause(c: string): Clause {
    Term(CategoryField, c)
  }

  function TypeClause(t: CourseType): Clause {
    Term(TypeField, TypeName(t))
  }

  function PriceClause(lo: Option<real>, hi: Option<real>): Clause {
    NumberRange(PriceField, lo, hi)
  }

  function DateClause(t: Timestamp): Clause {
    DateRange(t)
  }

  function FullTextPart(r: CourseSearchRequest): seq<Clause> {
    if HasText(r.q) then [FullTextClause(r.q.value)] else []
  }

  function MinAgePart(r: CourseSearchRequest): seq<Clause> {
    if r.minAge.Some? then [MinAgeClause(r.minAge.value)] else []
  }

  function MaxAgePart(r: CourseSearchRequest): seq<Clause> {
    if r.maxAge.Some? then [MaxAgeClause(r.maxAge.value)] else []
  }

  function CategoryPart(r: CourseSearchRequest): seq<Clause> {
    if HasText(r.category) then [CategoryClause(r.category.value)] else []
  }

  function TypePart(r: CourseSearchRequest): seq<Clause> {
    if r.courseType.Some? then [TypeClause(r.courseType.value)] else []
  }

  function PricePart(r: CourseSearchRequest): seq<Clause> {
    if r.minPrice.Some? || r.maxPrice.Some? then [PriceClause(r.minPrice, r.maxPrice)] else []
  }

  function DatePart(r: CourseSearchRequest): seq<Clause> {
    if r.startDate.Some? then [DateClause(r.startDate.value)] else []
  }

  /** The filter clauses, in the order minAge, maxAge, category, type, price, startDate. */
  function FilterPart(r: CourseSearchRequest): seq<Clause> {
    MinAgePart(r)
    + MaxAgePart(r)
    + CategoryPart(r)
    + TypePart(r)
    + PricePart(r)
    + DatePart(r)
  }

  /** The bool query buildSearchQuery assembles, as a value. */
  function BoolQueryFor(r: CourseSearchRequest): BoolQuery {
    BoolQuery(FullTextPart(r), FilterPart(r))
  }

  // ---------------------------------------------------------------------
  // Sort resolver
  // ---------------------------------------------------------------------

  const PriceAscending := SortOrder(Asc, PriceSort)
  const PriceDescending := SortOrder(Desc, PriceSort)
  const Upcoming := SortOrder(Asc, NextSessionDateSort)

  /**
   * getSortOptions: "priceasc" and "pricedesc", in any case, sort by price;
   * every other key sorts by the next session date, ascending.
   */
  function ResolveSort(sortType: string): (s: SortOrder)
    ensures s == PriceAscending <==> EqualsIgnoringAsciiCase(sortType, "priceasc")
    ensures s == PriceDescending <==> EqualsIgnoringAsciiCase(sortType, "pricedesc")
    ensures s == Upcoming <==> !EqualsIgnoringAsciiCase(sortType, "priceasc") && !EqualsIgnoringAsciiCase(sortType, "pricedesc")
    ensures s in {PriceAscending, PriceDescending, Upcoming}
  {
    LowerCaseMatchIff(sortType, "priceasc");
    LowerCaseMatchIff(sortType, "pricedesc");
    var key := ToLowerCase(sortType);
    if key == "priceasc" then PriceAscending
    else if key == "pricedesc" then PriceDescending
    else Upcoming
  }

  // ---------------------------------------------------------------------
  // buildSearchQuery
  // ---------------------------------------------------------------------

  /** The native query for a request, or the exception PageRequest.of throws. */
  function SearchQueryFor(r: CourseSearchRequest): Result<SearchQuery, QueryError> {
    match PageRequestOf(Page(r), Size(r))
    case Failure(e) => Failure(e)
    case Success(p) => Success(SearchQuery(BoolQueryFor(r), p, ResolveSort(Sort(r))))
  }

  /** The price block of buildSearchQuery: each bound is set only when it is given. */
  method BuildPriceRange(minPrice: Option<real>, maxPrice: Option<real>) returns (c: Clause)
    ensures c == PriceClause(minPrice, maxPrice)
  {
    var priceRange := new NumberRangeBuilder(PriceField);
    if minPrice.Some? {
      priceRange.Gte(minPrice.value);
    }
    if maxPrice.Some? {
      priceRange.Lte(maxPrice.value);
    }
    c := priceRange.Build();
  }

  /** The full-text block of buildSearchQuery. */
  method AddFullText(boolQuery: BoolQueryBuilder, request: CourseSearchRequest)
    modifies boolQuery
    ensures boolQuery.must == old(boolQuery.must) + FullTextPart(request)
    ensures boolQuery.filter == old(boolQuery.filter)
  {
    if HasText(request.q) {
      boolQuery.Must(FullTextClause(request.q.value));
    }
  }

  /** The two age blocks of buildSearchQuery. */
  method AddAgeFilters(boolQuery: BoolQueryBuilder, request: CourseSearchRequest)
    modifies boolQuery
    ensures boolQuery.filter == old(boolQuery.filter) + MinAgePart(request) + MaxAgePart(request)
    ensures boolQuery.must == old(boolQuery.must)
  {
    if request.minAge.Some? {
      boolQuery.Filter(MinAgeClause(request.minAge.value));
    }
    assert boolQuery.filter == old(boolQuery.filter) + MinAgePart(request);
    if request.maxAge.Some? {
      boolQuery.Filter(MaxAgeClause(request.maxAge.value));
    }
  }

  /** The category and type blocks of buildSearchQuery. */
  method AddTermFilters(boolQuery: BoolQueryBuilder, request: CourseSearchRequest)
    modifies boolQuery
    ensures boolQuery.filter == old(boolQuery.filter) + CategoryPart(request) + TypePart(request)
    ensures boolQuery.must == old(boolQuery.must)
  {
    if HasText(request.category) {
      boolQuery.Filter(CategoryClause(request.category.value));
    }
    assert boolQuery.filter == old(boolQuery.filter) + CategoryPart(request);
    if request.courseType.Some? {
      boolQuery.Filter(TypeClause(request.courseType.value));
    }
  }

  /** The price and date blocks of buildSearchQuery. */
  method AddPriceAndDateFilters(boolQuery: BoolQueryBuilder, request: CourseSearchRequest)
    modifies boolQuery
    ensures boolQuery.filter == old(boolQuery.filter) + PricePart(request) + DatePart(request)
    ensures boolQuery.must == old(boolQuery.must)
  {
    if request.minPrice.Some? || request.maxPrice.Some? {
      var priceQuery := BuildPriceRange(request.minPrice, request.maxPrice);
      boolQuery.Filter(priceQuery);
    }
    assert boolQuery.filter == old(boolQuery.filter) + PricePart(request);
    if request.startDate.Some? {
      boolQuery.Filter(DateClause(request.startDate.value));
    }
  }

  /** The bool-query part of buildSearchQuery: the guarded clause additions, in source order. */
  method BuildBoolQuery(request: CourseSearchRequest) returns (finalQuery: BoolQuery)
    ensures finalQuery == BoolQueryFor(request)
  {
    var boolQuery := new BoolQueryBuilder();
    AddFullText(boolQuery, request);
    AddAgeFilters(boolQuery, request);
    AddTermFilters(boolQuery, request);
    AddPriceAndDateFilters(boolQuery, request);
    assert [] + MinAgePart(request) == MinAgePart(request);
    finalQuery := boolQuery.Build();
  }

  /** buildSearchQuery: the bool query, then paging and sort. */
  method BuildSearchQuery(request: CourseSearchRequest) returns (r: Result<SearchQuery, QueryError>)
    ensures r == SearchQueryFor(request)
  {
    var finalQuery := BuildBoolQuery(request);
    var pageable := PageRequestOf(Page(request), Size(request));
    if pageable.Failure? {
      return Failure(pageable.error);
    }
    r := Success(SearchQuery(finalQuery, pageable.value, ResolveSort(Sort(request))));
  }

  // ---------------------------------------------------------------------
  // searchCourses
  // ---------------------------------------------------------------------

  /** The documents carried by a page of hits, in the engine's order. */
  function Contents(hits: seq<SearchHit>): (docs: seq<CourseDocument>)
    ensures |docs| == |hits|
    ensures forall i :: 0 <= i < |hits| ==> docs[i] == hits[i].content
  {
    MapSeq((h: SearchHit) => h.content, hits)
  }

  /**
   * searchCourses: build the query, hand it to the engine, and answer with the
   * engine's total and the documents of the returned hits.
   */
  method SearchCourses(request: CourseSearchRequest, engine: SearchQuery -> SearchHits)
    returns (r: Result<CourseSearchResponse, QueryError>)
    ensures r.Failure? <==> Page(request) < 0 || Size(request) < 1
    ensures r.Success? ==>
      && SearchQueryFor(request).Success?
      && r.value.total == engine(SearchQueryFor(request).value).totalHits
      && r.value.courses == Contents(engine(SearchQueryFor(request).value).hits)
  {
    var query := BuildSearchQuery(request);
    if query.Failure? {
      return Failure(query.error);
    }
    var searchHits := engine(query.value);
    var courses := Contents(searchHits.hits);
    r := Success(CourseSearchResponse(searchHits.totalHits, courses));
  }

  // ---------------------------------------------------------------------
  // getSuggestions
  // ---------------------------------------------------------------------

  const SuggestionLimit: nat := 10

  /** The match query on the search-as-you-type title copy, capped at ten hits. */
  function SuggestionQueryFor(text: string): (m: MatchQuery)
    ensures m.field == "titleSuggest" && m.text == text && m.maxResults == SuggestionLimit
  {
    MatchQuery("titleSuggest", text, SuggestionLimit)
  }

  /** The titles of a page of hits, in the engine's order. */
  function Titles(hits: seq<SearchHit>): (titles: seq<string>)
    ensures |titles| == |hits|
    ensures forall i :: 0 <= i < |hits| ==> titles[i] == hits[i].content.title
  {
    MapSeq((h: SearchHit) => h.content.title, hits)
  }

  /**
   * getSuggestions: nothing for a null or blank query; otherwise the distinct
   * titles of the engine's hits, first occurrences first, at most ten.
   */
  function GetSuggestions(query: Option<string>, engine: MatchQuery -> SearchHits): (r: seq<string>)
    ensures !HasText(query) ==> r == []
    ensures |r| <= SuggestionLimit
    ensures NoDuplicates(r)
  {
    if query.None? || IsBlank(query.value) then []
    else Limit(Distinct(Titles(engine(SuggestionQueryFor(query.value)).hits)), SuggestionLimit)
  }
}

/** What the queries built by CourseSearchService mean, and what its results satisfy. */
module CourseSearchProperties {
  import opened Wrappers
  import opened JavaStrings
  import opened Documents
  import opened Requests
  import opened SearchEngine
  import opened Streams
  import opened CourseSearchService

  // ---------------------------------------------------------------------
  // Shape of the bool query
  // ---------------------------------------------------------------------

  /**
   * The full-text clause: exactly one must clause, carrying q as given
   * (untrimmed), when q has a non-whitespace character; no must clause otherwise.
   */
  lemma FullTextClauseIff(r: CourseSearchRequest)
    ensures |BoolQueryFor(r).must| <= 1
    ensures BoolQueryFor(r).must != [] <==>
      r.q.Some? && exists i :: 0 <= i < |r.q.value| && !IsTrimmable(r.q.value[i])
    ensures r.q.Some? && BoolQueryFor(r).must != [] ==>
      BoolQueryFor(r).must == [MultiMatch(r.q.value, ["title^2", "description"], "AUTO")]
  {
  }

  /** The number of constraints a request sets that become filter clauses. */
  function FilterCount(r: CourseSearchRequest): nat {
    (if r.minAge.Some? then 1 else 0)
    + (if r.maxAge.Some? then 1 else 0)
    + (if HasText(r.category) then 1 else 0)
    + (if r.courseType.Some? then 1 else 0)
    + (if r.minPrice.Some? || r.maxPrice.Some? then 1 else 0)
    + (if r.startDate.Some? then 1 else 0)
  }

  /** A clause is a filter clause exactly when it is the clause of one of the request's blocks. */
  lemma FilterMembership(r: CourseSearchRequest, c: Clause)
    ensures c in FilterPart(r) <==>
      || c in MinAgePart(r) || c in MaxAgePart(r) || c in CategoryPart(r)
      || c in TypePart(r) || c in PricePart(r) || c in DatePart(r)
  {
  }

  /** There is one filter clause per constraint the request sets. */
  lemma FilterCountIsConstraintCount(r: CourseSearchRequest)
    ensures |BoolQueryFor(r).filter| == FilterCount(r)
  {
  }

  /**
   * The age, category and type filters are present exactly when their request
   * fields ask for them, with the values the request gives.
   */
  lemma AgeAndTermClausesIff(r: CourseSearchRequest)
    ensures forall a: Int32 :: MinAgeClause(a) in BoolQueryFor(r).filter <==> r.minAge == Some(a)
    ensures forall b: Int32 :: MaxAgeClause(b) in BoolQueryFor(r).filter <==> r.maxAge == Some(b)
    ensures forall c :: CategoryClause(c) in BoolQueryFor(r).filter <==> HasText(r.category) && r.category == Some(c)
    ensures forall t :: TypeClause(t) in BoolQueryFor(r).filter <==> r.courseType == Some(t)
  {
    forall a: Int32 ensures MinAgeClause(a) in FilterPart(r) <==> r.minAge == Some(a) {
      FilterMembership(r, MinAgeClause(a));
    }
    forall b: Int32 ensures MaxAgeClause(b) in FilterPart(r) <==> r.maxAge == Some(b) {
      FilterMembership(r, MaxAgeClause(b));
    }
    forall c ensures CategoryClause(c) in FilterPart(r) <==> HasText(r.category) && r.category == Some(c) {
      FilterMembership(r, CategoryClause(c));
    }
    forall t ensures TypeClause(t) in FilterPart(r) <==> r.courseType == Some(t) {
      FilterMembership(r, TypeClause(t));
      if r.courseType.Some? {
        TypeNameInjective(t, r.courseType.value);
      }
    }
  }

  /**
   * At most one price clause, present exactly when a price bound is given and
   * carrying exactly the given bounds; a date clause exactly when a start date is given.
   */
  lemma PriceAndDateClausesIff(r: CourseSearchRequest)
    ensures forall lo, hi :: PriceClause(lo, hi) in BoolQueryFor(r).filter <==>
      (r.minPrice.Some? || r.maxPrice.Some?) && lo == r.minPrice && hi == r.maxPrice
    ensures forall t :: DateClause(t) in BoolQueryFor(r).filter <==> r.startDate == Some(t)
  {
    forall lo, hi ensures PriceClause(lo, hi) in FilterPart(r) <==>
      (r.minPrice.Some? || r.maxPrice.Some?) && lo == r.minPrice && hi == r.maxPrice
    {
      FilterMembership(r, PriceClause(lo, hi));
    }
    forall t ensures DateClause(t) in FilterPart(r) <==> r.startDate == Some(t) {
      FilterMembership(r, DateClause(t));
    }
  }

  /** A request without constraints gives a bool query without clauses. */
  lemma NoConstraintsNoClauses(r: CourseSearchRequest)
    requires !HasText(r.q) && !HasText(r.category)
    requires r.minAge.None? && r.maxAge.None? && r.courseType.None?
    requires r.minPrice.None? && r.maxPrice.None? && r.startDate.None?
    ensures BoolQueryFor(r) == BoolQuery([], [])
    ensures forall doc, tm :: Matches(BoolQueryFor(r), doc, tm)
  {
  }

  // ---------------------------------------------------------------------
  // Meaning of the filters
  // ---------------------------------------------------------------------

  /** What a request asks of a document, stated field by field. */
  predicate Admits(r: CourseSearchRequest, doc: CourseDocument) {
    && AdmitsAge(r, doc)
    && (HasText(r.category) ==> doc.category == r.category)
    && (r.courseType.Some? ==> doc.courseType == r.courseType)
    && AdmitsPrice(r, doc)
    && (r.startDate.Some? ==> doc.nextSessionDate.Some? && doc.nextSessionDate.value >= r.startDate.value)
  }

  predicate AdmitsAge(r: CourseSearchRequest, doc: CourseDocument) {
    && (r.minAge.Some? ==> doc.maxAge.Some? && doc.maxAge.value >= r.minAge.value)
    && (r.maxAge.Some? ==> doc.minAge.Some? && doc.minAge.value <= r.maxAge.value)
  }

  predicate AdmitsPrice(r: CourseSearchRequest, doc: CourseDocument) {
    && (r.minPrice.Some? ==> doc.price.Some? && doc.price.value >= r.minPrice.value)
    && (r.maxPrice.Some? ==> doc.price.Some? && doc.price.value <= r.maxPrice.value)
  }

  /** All clauses of a concatenation hold exactly when all clauses of both parts hold. */
  lemma AllHoldAppend(a: seq<Clause>, b: seq<Clause>, doc: CourseDocument, tm: (string, CourseDocument) -> bool)
    ensures AllHold(a + b, doc, tm) <==> AllHold(a, doc, tm) && AllHold(b, doc, tm)
  {
    if AllHold(a, doc, tm) && AllHold(b, doc, tm) {
      forall c | c in a + b ensures ClauseHolds(c, doc, tm) {
        assert c in a || c in b;
      }
    }
  }

  /** All clauses of a one-clause sequence hold exactly when that clause holds. */
  lemma AllHoldSingleton(c: Clause, doc: CourseDocument, tm: (string, CourseDocument) -> bool)
    ensures AllHold([c], doc, tm) <==> ClauseHolds(c, doc, tm)
  {
    assert c in [c];
  }

  lemma AgePartsMean(r: CourseSearchRequest, doc: CourseDocument, tm: (string, CourseDocument) -> bool)
    ensures AllHold(MinAgePart(r) + MaxAgePart(r), doc, tm) <==> AdmitsAge(r, doc)
  {
    AllHoldAppend(MinAgePart(r), MaxAgePart(r), doc, tm);
    if r.minAge.Some? {
      AllHoldSingleton(MinAgeClause(r.minAge.value), doc, tm);
    }
    if r.maxAge.Some? {
      AllHoldSingleton(MaxAgeClause(r.maxAge.value), doc, tm);
    }
  }

  lemma TermPartsMean(r: CourseSearchRequest, doc: CourseDocument, tm: (string, CourseDocument) -> bool)
    ensures AllHold(CategoryPart(r), doc, tm) <==> (HasText(r.category) ==> doc.category == r.category)
    ensures AllHold(TypePart(r), doc, tm) <==> (r.courseType.Some? ==> doc.courseType == r.courseType)
  {
    if HasText(r.category) {
      AllHoldSingleton(CategoryClause(r.category.value), doc, tm);
    }
    if r.courseType.Some? {
      AllHoldSingleton(TypeClause(r.courseType.value), doc, tm);
      if doc.courseType.Some? {
        TypeNameInjective(doc.courseType.value, r.courseType.value);
      }
    }
  }

  lemma PriceAndDatePartsMean(r: CourseSearchRequest, doc: CourseDocument, tm: (string, CourseDocument) -> bool)
    ensures AllHold(PricePart(r), doc, tm) <==> AdmitsPrice(r, doc)
    ensures AllHold(DatePart(r), doc, tm) <==>
      (r.startDate.Some? ==> doc.nextSessionDate.Some? && doc.nextSessionDate.value >= r.startDate.value)
  {
    if r.minPrice.Some? || r.maxPrice.Some? {
      AllHoldSingleton(PriceClause(r.minPrice, r.maxPrice), doc, tm);
    }
    if r.startDate.Some? {
      AllHoldSingleton(DateClause(r.startDate.value), doc, tm);
    }
  }

  /** The filter clauses hold of a document exactly when the request admits it. */
  lemma FiltersMeanRequest(r: CourseSearchRequest, doc: CourseDocument, tm: (string, CourseDocument) -> bool)
    ensures AllHold(BoolQueryFor(r).filter, doc, tm) <==> Admits(r, doc)
  {
    var p1 := MinAgePart(r) + MaxAgePart(r);
    var p2 := p1 + CategoryPart(r);
    var p3 := p2 + TypePart(r);
    var p4 := p3 + PricePart(r);
    AllHoldAppend(p1, CategoryPart(r), doc, tm);
    AllHoldAppend(p2, TypePart(r), doc, tm);
    AllHoldAppend(p3, PricePart(r), doc, tm);
    AllHoldAppend(p4, DatePart(r), doc, tm);
    AgePartsMean(r, doc, tm);
    TermPartsMean(r, doc, tm);
    PriceAndDatePartsMean(r, doc, tm);
  }

  /**
   * The whole query: a document matches exactly when it matches the full
   * text (if any is given) and the request admits it.
   */
  lemma QueryMeansRequest(r: CourseSearchRequest, doc: CourseDocument, tm: (string, CourseDocument) -> bool)
    ensures Matches(BoolQueryFor(r), doc, tm) <==> (HasText(r.q) ==> tm(r.q.value, doc)) && Admits(r, doc)
  {
    FiltersMeanRequest(r, doc, tm);
    if HasText(r.q) {
      assert FullTextPart(r) == [FullTextClause(r.q.value)];
      assert FullTextClause(r.q.value) in FullTextPart(r);
    }
  }

  /** With both age bounds given, the age filters keep exactly the courses whose age window overlaps the requested one. */
  lemma AgeFiltersMeanWindowOverlap(r: CourseSearchRequest, doc: CourseDocument, tm: (string, CourseDocument) -> bool)
    requires r.minAge.Some? && r.maxAge.Some?
    ensures AllHold(MinAgePart(r) + MaxAgePart(r), doc, tm) <==>
      doc.minAge.Some? && doc.maxAge.Some? && doc.minAge.value <= r.maxAge.value && doc.maxAge.value >= r.minAge.value
  {
    assert MinAgeClause(r.minAge.value) in MinAgePart(r) + MaxAgePart(r);
    assert MaxAgeClause(r.maxAge.value) in MinAgePart(r) + MaxAgePart(r);
  }

  /** The sample catalogue's age query (10 to 13) keeps mathematics and physics and drops the art workshop. */
  lemma AgeWindowExample(tm: (string, CourseDocument) -> bool)
    ensures var r := CourseSearchRequest(None, Some(10), Some(13), None, None, None, None, None, None, None, None);
      && Matches(BoolQueryFor(r), Sample("Advanced Mathematics", 9, 12), tm)
      && Matches(BoolQueryFor(r), Sample("Basic Physics", 12, 15), tm)
      && !Matches(BoolQueryFor(r), Sample("Art Workshop", 6, 9), tm)
  {
    var r := CourseSearchRequest(None, Some(10), Some(13), None, None, None, None, None, None, None, None);
    QueryMeansRequest(r, Sample("Advanced Mathematics", 9, 12), tm);
    QueryMeansRequest(r, Sample("Basic Physics", 12, 15), tm);
    QueryMeansRequest(r, Sample("Art Workshop", 6, 9), tm);
  }

  /** A document with the given title and age window and no other constrained field. */
  function Sample(title: string, minAge: int, maxAge: int): CourseDocument {
    CourseDocument("", title, "", None, None, "", Some(minAge), Some(maxAge), None, None, title)
  }

  // ---------------------------------------------------------------------
  // Sort and defaults
  // ---------------------------------------------------------------------

  /** Keys that differ only in case resolve to the same order. */
  lemma SortIgnoresCase(a: string, b: string)
    requires EqualsIgnoringAsciiCase(a, b)
    ensures ResolveSort(a) == ResolveSort(b)
  {
    LowerCaseIgnoresCase(a, b);
  }

  /** The documented price keys resolve to price order, whatever their case. */
  lemma PriceSortExamples()
    ensures ResolveSort("priceAsc") == SortOrder(Asc, PriceSort)
    ensures ResolveSort("PRICEDESC") == SortOrder(Desc, PriceSort)
  {
    assert EqualsIgnoringAsciiCase("priceAsc", "priceasc");
    assert EqualsIgnoringAsciiCase("PRICEDESC", "pricedesc");
  }

  /** "upcoming" and the empty key fall back to the next session date, ascending. */
  lemma DefaultSortExamples()
    ensures ResolveSort("upcoming") == SortOrder(Asc, NextSessionDateSort)
    ensures ResolveSort("") == SortOrder(Asc, NextSessionDateSort)
  {
    assert LowerChar("upcoming"[0]) != LowerChar("priceasc"[0]);
    assert |"upcoming"| != |"pricedesc"|;
  }

  /**
   * Every request resolves to a sort order, and a request without sort or
   * paging sorts by next session date ascending and asks for the first ten.
   */
  lemma DefaultRequestQuery(r: CourseSearchRequest)
    requires r.sort.None? && r.page.None? && r.size.None?
    ensures SearchQueryFor(r) == Success(SearchQuery(BoolQueryFor(r), Pageable(0, 10), SortOrder(Asc, NextSessionDateSort)))
  {
    assert LowerChar("upcoming"[0]) != LowerChar("priceasc"[0]);
    assert |"upcoming"| != |"pricedesc"|;
  }

  /** The query depends on the request only through its getters: explicit defaults change nothing. */
  lemma QueryIgnoresExplicitDefaults(r: CourseSearchRequest)
    ensures SearchQueryFor(Effective(r)) == SearchQueryFor(r)
  {
    var e := Effective(r);
    BoolQueryReadsOnlyConstraints(e, r);
    assert Page(e) == Page(r) && Size(e) == Size(r) && Sort(e) == Sort(r);
  }

  /** The bool query depends only on the constraint fields, not on sort or paging. */
  lemma BoolQueryReadsOnlyConstraints(r: CourseSearchRequest, s: CourseSearchRequest)
    requires r.q == s.q && r.category == s.category && r.courseType == s.courseType
    requires r.minAge == s.minAge && r.maxAge == s.maxAge
    requires r.minPrice == s.minPrice && r.maxPrice == s.maxPrice && r.startDate == s.startDate
    ensures BoolQueryFor(r) == BoolQueryFor(s)
  {
    assert FullTextPart(r) == FullTextPart(s);
    assert MinAgePart(r) == MinAgePart(s) && MaxAgePart(r) == MaxAgePart(s);
    assert CategoryPart(r) == CategoryPart(s) && TypePart(r) == TypePart(s);
    assert PricePart(r) == PricePart(s) && DatePart(r) == DatePart(s);
  }

  // ---------------------------------------------------------------------
  // searchCourses results
  // ---------------------------------------------------------------------

  /**
   * If the engine returns only matching documents, every returned course is
   * admitted by the request and matches its full text; the response has one
   * course per hit, so an engine honouring the page size returns at most size courses.
   */
  lemma ReturnedCoursesSatisfyRequest(
      r: CourseSearchRequest, q: SearchQuery, result: SearchHits, tm: (string, CourseDocument) -> bool)
    requires SearchQueryFor(r) == Success(q)
    requires forall h :: h in result.hits ==> Matches(q.query, h.content, tm)
    ensures |Contents(result.hits)| == |result.hits|
    ensures forall d :: d in Contents(result.hits) ==> Admits(r, d) && (HasText(r.q) ==> tm(r.q.value, d))
    ensures |result.hits| <= q.pageable.size ==> |Contents(result.hits)| <= Size(r)
  {
    var docs := Contents(result.hits);
    forall d | d in docs
      ensures Admits(r, d) && (HasText(r.q) ==> tm(r.q.value, d))
    {
      var i :| 0 <= i < |docs| && docs[i] == d;
      assert result.hits[i] in result.hits;
      QueryMeansRequest(r, d, tm);
    }
  }

  // ---------------------------------------------------------------------
  // getSuggestions
  // ---------------------------------------------------------------------

  /** A blank suggestion query never consults the engine: the answer is the same for every engine. */
  lemma BlankSuggestionIssuesNoSearch(query: Option<string>, e1: MatchQuery -> SearchHits, e2: MatchQuery -> SearchHits)
    requires query.None? || forall i :: 0 <= i < |query.value| ==> IsTrimmable(query.value[i])
    ensures GetSuggestions(query, e1) == GetSuggestions(query, e2) == []
  {
  }

  /**
   * For a non-blank query the suggestions are the first distinct titles of the
   * hits, in first-occurrence order, at most ten of them, and every distinct
   * title when there are no more than ten.
   */
  lemma SuggestionsAreFirstDistinctTitles(query: Option<string>, engine: MatchQuery -> SearchHits)
    requires HasText(query)
    ensures var titles := Titles(engine(SuggestionQueryFor(query.value)).hits);
      var r := GetSuggestions(query, engine);
      && IsSubsequence(r, titles)
      && r == Limit(FirstOccurrences(titles), SuggestionLimit)
      && |r| == (if |set t | t in titles| <= SuggestionLimit then |set t | t in titles| else SuggestionLimit)
      && (|set t | t in titles| <= SuggestionLimit ==> forall i :: 0 <= i < |titles| ==> titles[i] in r)
  {
    var titles := Titles(engine(SuggestionQueryFor(query.value)).hits);
    var d := Distinct(titles);
    DistinctFromIsSubsequence(titles, {});
    PrefixOfSubsequence(d, titles, |Limit(d, SuggestionLimit)|);
    DistinctIsFirstOccurrences(titles);
    DistinctLength(titles);
  }

  /** Repeated titles collapse to their first occurrence. */
  lemma SuggestionExample(engine: MatchQuery -> SearchHits)
    requires engine(SuggestionQueryFor("math")).hits
      == [SearchHit(Sample("Advanced Mathematics", 9, 12)), SearchHit(Sample("Applied Math", 9, 12)),
          SearchHit(Sample("Advanced Mathematics", 10, 14))]
    ensures GetSuggestions(Some("math"), engine) == ["Advanced Mathematics", "Applied Math"]
  {
    assert !IsTrimmable("math"[0]);
    var hits := engine(SuggestionQueryFor("math")).hits;
    var t := Titles(hits);
    var adv, app := "Advanced Mathematics", "Applied Math";
    assert t == [adv, app, adv];
    assert adv != app by {
      assert adv[1] != app[1];
    }
    assert t[2..] == [adv] && t[2..][1..] == [];
    assert DistinctFrom(t[2..], {adv, app}) == [];
    assert t[1..][1..] == t[2..] && t[1..][0] == app;
    assert {adv} + {app} == {adv, app};
    assert DistinctFrom(t[1..], {adv}) == [app];
    assert {} + {adv} == {adv};
    assert Distinct(t) == [adv] + DistinctFrom(t[1..], {adv});
  }
}
