/** The indexed course document, as the search engine stores it. */
module Documents {
  import opened Wrappers

  /** An instant, on a single UTC time scale (seconds since an epoch). */
  type Timestamp = int

  /** CourseDocument.CourseType. */
  datatype CourseType = OneTime | Course | Club

  /** Enum.name() of a course type: the keyword stored in the index. */
  function TypeName(t: CourseType): string {
    match t
    case OneTime => "ONE_TIME"
    case Course => "COURSE"
    case Club => "CLUB"
  }

  /** Distinct course types have distinct names. */
  lemma TypeNameInjective(a: CourseType, b: CourseType)
    ensures TypeName(a) == TypeName(b) <==> a == b
  {
    if a != b {
      assert TypeName(a)[0] != TypeName(b)[0] || |TypeName(a)| != |TypeName(b)|;
    }
  }

  /**
   * A course document. The fields that the search filters consult may be
   * absent from a stored document (Java null); the text fields are kept as
   * plain strings.
   */
  datatype CourseDocument = CourseDocument(
    id: string,
    title: string,
    description: string,
    category: Option<string>,
    courseType: Option<CourseType>,
    gradeRange: string,
    minAge: Option<int>,
    maxAge: Option<int>,
    price: Option<real>,
    nextSessionDate: Option<Timestamp>,
    titleSuggest: string)
}
