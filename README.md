# Course search: a verified model of the query-translation core

The course search API takes a search request (free text, age and price
bounds, category, course type, earliest session date, sort key, page and
size). `CourseSearchService` turns it into a bool query for an external
search engine, picks a sort order and a page, and maps the engine's hits
to a response. For autocomplete, it asks the engine for hits on the
search-as-you-type copy of the title. It then returns at most ten distinct
titles, in first-occurrence order.

This project models that core in Dafny and proves what the query means.
The engine stays abstract: it is a function parameter from query to hits,
and full-text relevance is a relation `textMatches`.

- `Wrappers`: `Option` for Java `null` and `Result` for a thrown exception.
- `JavaStrings`: `String.trim()`, `trim().isEmpty()` and `toLowerCase()` on ASCII letters, with `EqualsIgnoringAsciiCase`, the comparison that lower-casing ASCII letters decides. It is not Java's `equalsIgnoreCase`, which also folds non-ASCII letters.
- `Documents`: `CourseDocument` and the three-valued `CourseType` with its enum names.
- `Requests`: `CourseSearchRequest` with its defaulting getters, and `CourseSearchResponse`.
- `SearchEngine`: the query language used (multi-match, number range, term, date range, bool query), sort, `PageRequest.of`, hits, and `ClauseHolds`. `ClauseHolds` says when a clause matches one stored document.
- `Streams`: `map`, `distinct` and `limit`. `map` and `limit` are stated by their own contracts. `distinct` also has an independent reference definition, `FirstOccurrences`, and lemmas tying the two together.
- `CourseSearchService`: the builder classes and `buildSearchQuery` as imperative methods proved equal to the pure `BoolQueryFor` / `SearchQueryFor`. Also the sort resolver, `searchCourses` and `getSuggestions`.
- `CourseSearchProperties`: what the built query means for a document, and what search and suggestion results satisfy.

`buildSearchQuery` is one Java method. Here its guarded blocks are split into
four small methods (`AddFullText`, `AddAgeFilters`, `AddTermFilters`,
`AddPriceAndDateFilters`) over one `BoolQueryBuilder`. They are called in
source order, so the clause order is unchanged. The split keeps each proof
small.

`PageRequest.of` is Spring library code, which is not part of this model. Its
documented contract is modelled: it rejects a negative page or a size
below one. So `SearchQueryFor` and `SearchCourses` return `Failure` exactly
in those cases, where the Java code throws.

Three details of the code that the model keeps as written:
- A category filter needs a category that is non-blank after `trim()` (CourseSearchService.java line 89).
- The page size is not capped: any size of at least one is passed on to the page request.
- The full-text and suggestion queries are sent to the engine untrimmed (lines 61 and 173).

## Model

| member | source | states |
|---|---|---|
| `JavaStrings.TrimStart` | src/main/java/com/undoschool/coursesearch/service/CourseSearchService.java:58 | the part `trim()` keeps starts at the first character above U+0020; everything dropped is at or below it |
| `JavaStrings.TrimEnd` | src/main/java/com/undoschool/coursesearch/service/CourseSearchService.java:58 | the part `trim()` keeps ends at the last character above U+0020; everything dropped is at or below it |
| `JavaStrings.Trim` | src/main/java/com/undoschool/coursesearch/service/CourseSearchService.java:58 | `trim()` keeps one contiguous stretch of `s`, with only characters at or below U+0020 before and after it, and the stretch neither starts nor ends with such a character |
| `JavaStrings.IsBlank` | src/main/java/com/undoschool/coursesearch/service/CourseSearchService.java:166 | `s.trim().isEmpty()` holds exactly when every character of `s` is at or below U+0020 |
| `JavaStrings.ToLowerCase` | src/main/java/com/undoschool/coursesearch/service/CourseSearchService.java:153 | `toLowerCase()` keeps the length and lower-cases each character in place |
| `JavaStrings.LowerCaseMatchIff` | src/main/java/com/undoschool/coursesearch/service/CourseSearchService.java:153-157 | lower-casing a key gives a lower-case literal exactly when the key equals that literal ignoring case |
| `JavaStrings.LowerCaseIgnoresCase` | src/main/java/com/undoschool/coursesearch/service/CourseSearchService.java:153 | keys equal up to case lower-case to the same string |
| `Documents.TypeNameInjective` | src/main/java/com/undoschool/coursesearch/document/CourseDocument.java:55-57 | the enum names `ONE_TIME`, `COURSE` and `CLUB` are pairwise different, so two course types have the same `name()` exactly when they are the same type |
| `Requests.Page` | src/main/java/com/undoschool/coursesearch/dto/CourseSearchRequest.java:29-31 | `getPage()` is 0 for a null page and the stored page otherwise |
| `Requests.Size` | src/main/java/com/undoschool/coursesearch/dto/CourseSearchRequest.java:33-35 | `getSize()` is 10 for a null size and the stored size otherwise |
| `Requests.Sort` | src/main/java/com/undoschool/coursesearch/dto/CourseSearchRequest.java:37-39 | `getSort()` is `"upcoming"` for a null sort and the stored key otherwise, the empty key included |
| `Requests.Effective` | src/main/java/com/undoschool/coursesearch/dto/CourseSearchRequest.java:16-39 | seen through its getters, a request gets page, size and sort filled in; every other field stays exactly as stored, and null stays null |
| `Requests.EffectiveIsTransparent` | src/main/java/com/undoschool/coursesearch/dto/CourseSearchRequest.java:29-39 | applying the defaults is idempotent, and a null page, size or sort is indistinguishable from the explicit default |
| `SearchEngine.PageRequestOf` | src/main/java/com/undoschool/coursesearch/service/CourseSearchService.java:142 | the page request succeeds exactly when page is at least 0 and size at least 1, and then carries them unchanged |
| `Streams.MapSeq` | src/main/java/com/undoschool/coursesearch/service/CourseSearchService.java:43-46 | `map` keeps the length and maps each element in place |
| `Streams.DistinctFrom` | src/main/java/com/undoschool/coursesearch/service/CourseSearchService.java:187 | `distinct` after a set of already-seen elements outputs only unseen input elements, without duplicates, and every unseen input element |
| `Streams.Distinct` | src/main/java/com/undoschool/coursesearch/service/CourseSearchService.java:187 | `distinct` has no duplicates and has exactly the elements of its input |
| `Streams.DistinctFromSnoc` | src/main/java/com/undoschool/coursesearch/service/CourseSearchService.java:187 | appending an element to the input of `distinct` appends it to the output exactly when it is new |
| `Streams.DistinctIsFirstOccurrences` | src/main/java/com/undoschool/coursesearch/service/CourseSearchService.java:187 | `distinct` keeps exactly the positions whose element has not occurred earlier, in input order |
| `Streams.DistinctFromIsSubsequence` | src/main/java/com/undoschool/coursesearch/service/CourseSearchService.java:187 | the output of `distinct` is a subsequence of its input |
| `Streams.DistinctLength` | src/main/java/com/undoschool/coursesearch/service/CourseSearchService.java:187 | `distinct` outputs one element per distinct input element |
| `Streams.NoDuplicatesCardinality` | src/main/java/com/undoschool/coursesearch/service/CourseSearchService.java:187 | a sequence without duplicates is as long as its set of elements |
| `Streams.Limit` | src/main/java/com/undoschool/coursesearch/service/CourseSearchService.java:188 | `limit(n)` is the prefix of length min(n, length) |
| `Streams.PrefixOfSubsequence` | src/main/java/com/undoschool/coursesearch/service/CourseSearchService.java:188 | truncating a subsequence leaves a subsequence |
| `CourseSearchService.BoolQueryBuilder.constructor` | src/main/java/com/undoschool/coursesearch/service/CourseSearchService.java:55 | a new bool query builder holds no must and no filter clauses |
| `CourseSearchService.BoolQueryBuilder.Must` | src/main/java/com/undoschool/coursesearch/service/CourseSearchService.java:66 | `must(q)` appends `q` to the must clauses and leaves the filters alone |
| `CourseSearchService.BoolQueryBuilder.Filter` | src/main/java/com/undoschool/coursesearch/service/CourseSearchService.java:76 | `filter(q)` appends `q` to the filter clauses and leaves the must clauses alone |
| `CourseSearchService.BoolQueryBuilder.Build` | src/main/java/com/undoschool/coursesearch/service/CourseSearchService.java:139 | `build()` gives the bool query of exactly the clauses added so far, in call order |
| `CourseSearchService.NumberRangeBuilder.constructor` | src/main/java/com/undoschool/coursesearch/service/CourseSearchService.java:112-113 | a new price range builder is on its field and has neither bound |
| `CourseSearchService.NumberRangeBuilder.Gte` | src/main/java/com/undoschool/coursesearch/service/CourseSearchService.java:116 | `gte(v)` sets the lower bound to `v` and changes nothing else |
| `CourseSearchService.NumberRangeBuilder.Lte` | src/main/java/com/undoschool/coursesearch/service/CourseSearchService.java:119 | `lte(v)` sets the upper bound to `v` and changes nothing else |
| `CourseSearchService.NumberRangeBuilder.Build` | src/main/java/com/undoschool/coursesearch/service/CourseSearchService.java:122 | `build()` gives a number range on the builder's field with exactly the bounds that were set |
| `CourseSearchService.HasText` | src/main/java/com/undoschool/coursesearch/service/CourseSearchService.java:58 | the guard `s != null && !s.trim().isEmpty()`, also used at lines 89 and 166, holds exactly when `s` is present and has a character above U+0020 |
| `CourseSearchService.ResolveSort` | src/main/java/com/undoschool/coursesearch/service/CourseSearchService.java:152-162 | total: `priceasc` in any case gives price ascending, `pricedesc` in any case gives price descending, every other key gives next session date ascending |
| `CourseSearchService.BuildPriceRange` | src/main/java/com/undoschool/coursesearch/service/CourseSearchService.java:111-122 | the price range has field price and carries `gte` exactly when a minimum price is given and `lte` exactly when a maximum is given |
| `CourseSearchService.AddFullText` | src/main/java/com/undoschool/coursesearch/service/CourseSearchService.java:57-67 | the builder gains the multi-match must clause exactly when q has text, and its filters are untouched |
| `CourseSearchService.AddAgeFilters` | src/main/java/com/undoschool/coursesearch/service/CourseSearchService.java:69-86 | the builder gains the minAge filter, then the maxAge filter, each exactly when given |
| `CourseSearchService.AddTermFilters` | src/main/java/com/undoschool/coursesearch/service/CourseSearchService.java:88-108 | the builder gains the category filter when the category has text, then the type filter when a type is given |
| `CourseSearchService.AddPriceAndDateFilters` | src/main/java/com/undoschool/coursesearch/service/CourseSearchService.java:110-136 | the builder gains one price filter when either bound is given, then the date filter when a start date is given |
| `CourseSearchService.BuildBoolQuery` | src/main/java/com/undoschool/coursesearch/service/CourseSearchService.java:54-139 | the step-by-step builder yields exactly `BoolQueryFor(request)` |
| `CourseSearchService.BuildSearchQuery` | src/main/java/com/undoschool/coursesearch/service/CourseSearchService.java:54-150 | the native query is the bool query, the page request and the resolved sort, or the page request failure, i.e. exactly `SearchQueryFor(request)` |
| `CourseSearchService.Contents` | src/main/java/com/undoschool/coursesearch/service/CourseSearchService.java:43-46 | the courses are the hit documents, one per hit, in the engine's order |
| `CourseSearchService.SearchCourses` | src/main/java/com/undoschool/coursesearch/service/CourseSearchService.java:33-52 | searching fails exactly when the page request is invalid; otherwise the response carries the engine's total and the documents of its hits, in order |
| `CourseSearchService.SuggestionQueryFor` | src/main/java/com/undoschool/coursesearch/service/CourseSearchService.java:170-180 | the suggestion query is a match on `titleSuggest` with the query text as given, capped at ten results |
| `CourseSearchService.Titles` | src/main/java/com/undoschool/coursesearch/service/CourseSearchService.java:186 | the titles are those of the hit documents, one per hit, in the engine's order |
| `CourseSearchService.GetSuggestions` | src/main/java/com/undoschool/coursesearch/service/CourseSearchService.java:165-190 | a null or blank query gives the empty list; any result has at most ten entries and no duplicates |
| `CourseSearchProperties.FullTextClauseIff` | src/main/java/com/undoschool/coursesearch/service/CourseSearchService.java:58-67 | there is at most one must clause; there is one exactly when q contains a character above U+0020; it is the multi-match of the untrimmed q on `title^2` and `description` with fuzziness `AUTO` |
| `CourseSearchProperties.FilterCountIsConstraintCount` | src/main/java/com/undoschool/coursesearch/service/CourseSearchService.java:69-136 | there is one filter clause per constraint the request sets |
| `CourseSearchProperties.FilterMembership` | src/main/java/com/undoschool/coursesearch/service/CourseSearchService.java:69-136 | a clause is a filter exactly when it comes from one of the six filter blocks |
| `CourseSearchProperties.AgeAndTermClausesIff` | src/main/java/com/undoschool/coursesearch/service/CourseSearchService.java:70-108 | the filter `maxAge >= a` is present exactly when minAge is a; `minAge <= b` exactly when maxAge is b; the category term exactly when the category has text, with its untrimmed value; the type term exactly when the type is given |
| `CourseSearchProperties.PriceAndDateClausesIff` | src/main/java/com/undoschool/coursesearch/service/CourseSearchService.java:111-136 | a price clause is present exactly when a price bound is given, and carries exactly the given bounds; the date clause is present exactly when a start date is given |
| `CourseSearchProperties.NoConstraintsNoClauses` | src/main/java/com/undoschool/coursesearch/service/CourseSearchService.java:54-139 | a request without constraints gives no must and no filter clauses, so every document matches |
| `CourseSearchProperties.AllHoldAppend` | src/main/java/com/undoschool/coursesearch/service/CourseSearchService.java:139 | the filters of a bool query combine conjunctively |
| `CourseSearchProperties.AgePartsMean` | src/main/java/com/undoschool/coursesearch/service/CourseSearchService.java:70-86 | the age filters hold exactly when the course's maximum age reaches the requested minimum and its minimum age does not exceed the requested maximum |
| `CourseSearchProperties.TermPartsMean` | src/main/java/com/undoschool/coursesearch/service/CourseSearchService.java:89-108 | the category filter holds exactly when the category is the requested one; the type filter exactly when the type is the requested one |
| `CourseSearchProperties.PriceAndDatePartsMean` | src/main/java/com/undoschool/coursesearch/service/CourseSearchService.java:111-136 | the price filter holds exactly when the price is within the given inclusive bounds; the date filter exactly when the next session is at or after the start date |
| `CourseSearchProperties.FiltersMeanRequest` | src/main/java/com/undoschool/coursesearch/service/CourseSearchService.java:69-136 | a document passes all filters exactly when the request admits it, field by field |
| `CourseSearchProperties.QueryMeansRequest` | src/main/java/com/undoschool/coursesearch/service/CourseSearchService.java:57-139 | a document matches the query exactly when it matches the full text, if any is given, and the request admits it |
| `CourseSearchProperties.AgeFiltersMeanWindowOverlap` | src/main/java/com/undoschool/coursesearch/service/CourseSearchService.java:70-86 | with both age bounds, the two age filters keep exactly the courses whose age window overlaps the requested one |
| `CourseSearchProperties.AgeWindowExample` | src/test/java/com/undoschool/coursesearch/integration/CourseSearchIntegrationTest.java:139-153 | for ages 10 to 13, the mathematics (9-12) and physics (12-15) courses match and the art workshop (6-9) does not |
| `CourseSearchProperties.SortIgnoresCase` | src/main/java/com/undoschool/coursesearch/service/CourseSearchService.java:153 | keys that differ only in case resolve to the same sort |
| `CourseSearchProperties.PriceSortExamples` | src/main/java/com/undoschool/coursesearch/service/CourseSearchService.java:153-157 | `priceAsc` sorts by price ascending and `PRICEDESC` by price descending |
| `CourseSearchProperties.DefaultSortExamples` | src/main/java/com/undoschool/coursesearch/service/CourseSearchService.java:158-160 | `upcoming` and the empty key sort by next session date ascending |
| `CourseSearchProperties.DefaultRequestQuery` | src/main/java/com/undoschool/coursesearch/service/CourseSearchService.java:142-148 | a request without sort, page and size asks for page 0 of size 10, sorted by next session date ascending |
| `CourseSearchProperties.QueryIgnoresExplicitDefaults` | src/main/java/com/undoschool/coursesearch/dto/CourseSearchRequest.java:29-39 | the native query is the same whether the defaults are filled in or left null |
| `CourseSearchProperties.BoolQueryReadsOnlyConstraints` | src/main/java/com/undoschool/coursesearch/service/CourseSearchService.java:54-139 | the bool query depends only on the constraint fields, not on sort or paging |
| `CourseSearchProperties.ReturnedCoursesSatisfyRequest` | src/main/java/com/undoschool/coursesearch/service/CourseSearchService.java:40-51 | if the engine returns only matching documents, every returned course is admitted by the request and matches its text; there is one course per hit, so at most size courses when the engine honours the page |
| `CourseSearchProperties.BlankSuggestionIssuesNoSearch` | src/main/java/com/undoschool/coursesearch/service/CourseSearchService.java:166-168 | for a null or whitespace-only query, the result is empty and the same for every engine, so no search is used |
| `CourseSearchProperties.SuggestionsAreFirstDistinctTitles` | src/main/java/com/undoschool/coursesearch/service/CourseSearchService.java:179-189 | for a query with text, the suggestions are a subsequence of the hit titles: the first ten distinct titles in first-occurrence order, min(10, number of distinct titles) of them, and every title when there are at most ten |
| `CourseSearchProperties.SuggestionExample` | src/main/java/com/undoschool/coursesearch/service/CourseSearchService.java:184-189 | hits titled Advanced Mathematics, Applied Math, Advanced Mathematics give the two distinct titles in that order |

## Left out

- Search engine execution: relevance scoring, fuzzy matching, the `title^2` boost and `search_as_you_type` tokenisation are the engine's own. The engine is a function parameter from query to hits, and full-text matching is an abstract relation `textMatches`.
- Engine failures: an exception thrown by `elasticsearchOperations.search` (CourseSearchService.java lines 40 and 182) propagates out of `searchCourses` and `getSuggestions`. The engine parameter is a total function, so this path is not modelled.
- Engine-side sorting and pagination: `SortOrder` and `Pageable` are carried as data. Nothing is proved about the order or slicing of the hits the engine returns.
- `SearchEngine.PageRequestOf`: Spring's `PageRequest.of` is not part of this model. Only its documented argument checks are modelled.
- Date formatting: `ISO_LOCAL_DATE_TIME` plus `"Z"` is library formatting. Start dates and session dates are integer instants on one UTC scale.
- Prices: `Double` becomes `real`. NaN, infinities and rounding are not modelled.
- `JavaStrings.ToLowerCase`: only ASCII letters are lower-cased. Locale-dependent mapping and non-ASCII case mapping are not modelled. Outside the Turkish and Azerbaijani locales, `String.toLowerCase` turns U+0130 into `"i\u0307"` (two characters), so a sort key with a non-ASCII character does not lower-case to `priceasc` or `pricedesc` there. In those two locales `I` lower-cases to a dotless i and U+0130 to `i`, which the model does not follow.
- `CourseSearchService.ResolveSort`: its contract is stated with `EqualsIgnoringAsciiCase`, which compares ASCII case only. It does not promise anything in terms of Java's `equalsIgnoreCase`, which would call `"priceaſc"` (with U+017F) equal to `priceasc` although the code's `toLowerCase` switch does not choose price order for it.
- `CourseSearchService.Titles`: a document whose title is null is not modelled. Text fields of `CourseDocument` are plain strings. Only the fields the filters read may be absent.
- `CourseSearchService.GetSuggestions`: the engine's hit list is taken as given, whether or not it honours the ten-hit cap on the match query.
- 32-bit wrap-around: ages, page and size are `Int32` values and no arithmetic is done on them.
- Logging in the service and the single-use checks of the engine client's builders.
- Controller: request binding, parameter defaults, CORS and the constant health string belong to the Spring controller.
- Exception handler: the error body is chosen by Spring's handler dispatch and consists of fixed strings.
- Data loader, application entry point, Jackson configuration and the repository interface: these are I/O, startup and framework code.
