/** The request and response carriers of the search API (package dto). */
module Requests {
  import opened Wrappers
  import opened Documents

  /** java.lang.Integer values. */
  type Int32 = x: int | -0x8000_0000 <= x < 0x8000_0000

  const DefaultPage: Int32 := 0
  const DefaultSize: Int32 := 10
  const DefaultSort: string := "upcoming"

  /** CourseSearchRequest: every field may be null (None). */
  datatype CourseSearchRequest = CourseSearchRequest(
    q: Option<string>,
    minAge: Option<Int32>,
    maxAge: Option<Int32>,
    category: Option<string>,
    courseType: Option<CourseType>,
    minPrice: Option<real>,
    maxPrice: Option<real>,
    startDate: Option<Timestamp>,
    sort: Option<string>,
    page: Option<Int32>,
    size: Option<Int32>)

  /** getPage(): the stored page, or 0 when it is null. */
  function Page(r: CourseSearchRequest): (p: Int32)
    ensures r.page.None? ==> p == DefaultPage
    ensures r.page.Some? ==> r.page == Some(p)
  {
    if r.page.Some? then r.page.value else DefaultPage
  }

  /** getSize(): the stored size, or 10 when it is null. */
  function Size(r: CourseSearchRequest): (n: Int32)
    ensures r.size.None? ==> n == DefaultSize
    ensures r.size.Some? ==> r.size == Some(n)
  {
    if r.size.Some? then r.size.value else DefaultSize
  }

  /** getSort(): the stored sort key (the empty string included), or "upcoming" when it is null. */
  function Sort(r: CourseSearchRequest): (s: string)
    ensures r.sort.None? ==> s == DefaultSort
    ensures r.sort.Some? ==> r.sort == Some(s)
  {
    if r.sort.Some? then r.sort.value else DefaultSort
  }

  /**
   * The request as the service sees it through its getters: page, size and
   * sort are filled in, every other field is exactly as stored.
   */
  function Effective(r: CourseSearchRequest): (e: CourseSearchRequest)
    ensures e.page == Some(Page(r)) && e.size == Some(Size(r)) && e.sort == Some(Sort(r))
    ensures e.q == r.q && e.category == r.category && e.courseType == r.courseType
    ensures e.minAge == r.minAge && e.maxAge == r.maxAge
    ensures e.minPrice == r.minPrice && e.maxPrice == r.maxPrice
    ensures e.startDate == r.startDate
  {
    r.(page := Some(Page(r)), size := Some(Size(r)), sort := Some(Sort(r)))
  }

  /**
   * Defaults are transparent: the getters cannot tell a request with the
   * defaults filled in from the original, and filling them in twice changes nothing.
   */
  lemma EffectiveIsTransparent(r: CourseSearchRequest)
    ensures Page(Effective(r)) == Page(r) && Size(Effective(r)) == Size(r) && Sort(Effective(r)) == Sort(r)
    ensures Effective(Effective(r)) == Effective(r)
    ensures Effective(r.(page := None)) == Effective(r.(page := Some(DefaultPage)))
    ensures Effective(r.(size := None)) == Effective(r.(size := Some(DefaultSize)))
    ensures Effective(r.(sort := None)) == Effective(r.(sort := Some(DefaultSort)))
  {
  }

  /** CourseSearchResponse: the engine's total hit count and the page of documents. */
  datatype CourseSearchResponse = CourseSearchResponse(total: int, courses: seq<CourseDocument>)
}
