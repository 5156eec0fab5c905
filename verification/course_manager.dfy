/**
 * The course management page (src/components/backend/CourseManager.tsx): who may see it, the
 * creation form and its submit cycle, and how the course list is laid out.
 */
module CourseManager {
  import opened Wrappers
  import opened Dtos

  /** The page is shown to instructors and administrators; everyone else, or no user, is denied. */
  datatype Page = ManagerDenied | ManagerShown

  predicate MayManage(role: Role) {
    role == Instructor || role == Admin
  }

  function Gate(user: Option<UserDto>): (p: Page)
    ensures p == ManagerShown <==> user.Some? && user.value.role != Student
    ensures user.None? ==> p == ManagerDenied
  {
    if user.Some? && MayManage(user.value.role) then ManagerShown else ManagerDenied
  }

  /** The creation form's three text fields. */
  datatype Form = Form(title: string, description: string, price: string)

  datatype Field = TitleField | DescriptionField | PriceField

  const EmptyForm := Form("", "", "")

  function FieldValue(f: Form, field: Field): string {
    match field
    case TitleField => f.title
    case DescriptionField => f.description
    case PriceField => f.price
  }

  /** An input change sets the one field it belongs to and keeps the others. */
  function ChangeField(f: Form, field: Field, value: string): (g: Form)
    ensures FieldValue(g, field) == value
    ensures forall other: Field :: other != field ==> FieldValue(g, other) == FieldValue(f, other)
  {
    match field
    case TitleField => f.(title := value)
    case DescriptionField => f.(description := value)
    case PriceField => f.(price := value)
  }

  /** The page state. */
  datatype State = State(courses: seq<CourseDto>, isLoading: bool, isCreating: bool, form: Form)

  /** The page as first rendered: loading, not creating, empty form, no courses. */
  const Initial := State([], true, false, EmptyForm)

  /** The submit button is disabled exactly while a creation is in progress. */
  predicate SubmitDisabled(s: State) {
    s.isCreating
  }

  /**
   * The submit handler's first update: creating, everything else untouched. The handler never
   * awaits, so this state is batched together with the later updates and never rendered.
   */
  function SubmitStarted(s: State): (t: State)
    ensures SubmitDisabled(t)
    ensures t.(isCreating := s.isCreating) == s
  {
    s.(isCreating := true)
  }

  /**
   * The submit handler's end state. Its protected block contains no call that can fail, so it always
   * clears the form and starts a course refetch, and creation is over.
   */
  function SubmitFinished(s: State): (t: State)
    ensures !SubmitDisabled(t)
    ensures t.form == EmptyForm
    ensures t.isLoading && t.courses == s.courses
  {
    s.(form := EmptyForm, isLoading := true, isCreating := false)
  }

  /** The refetch resolving with a list of courses. */
  function CoursesLoaded(s: State, courses: seq<CourseDto>): (t: State)
    ensures !t.isLoading && t.courses == courses
    ensures t.form == s.form && t.isCreating == s.isCreating
  {
    s.(courses := courses, isLoading := false)
  }

  /** Over a submit's updates `isCreating` is set and then cleared, and whatever was typed is cleared. */
  lemma SubmitCycle(s: State, title: string, description: string, price: string)
    ensures var filled := ChangeField(ChangeField(ChangeField(s.form, TitleField, title), DescriptionField, description), PriceField, price);
      var during := SubmitStarted(s.(form := filled));
      SubmitDisabled(during) && during.form == Form(title, description, price) &&
      !SubmitDisabled(SubmitFinished(during)) && SubmitFinished(during).form == EmptyForm
  {
  }

  /** One rendered course row and whether a separator follows it. */
  datatype Row = Row(course: CourseDto, separatorAfter: bool)

  /** The list area: a spinner while loading, an empty notice, or the rows. */
  datatype Listing = LoadingCourses | NoCourses | Rows(rows: seq<Row>)

  function RenderRows(courses: seq<CourseDto>): (rows: seq<Row>)
    ensures |rows| == |courses|
    ensures forall i :: 0 <= i < |rows| ==> rows[i].course == courses[i]
    ensures forall i :: 0 <= i < |rows| ==> (rows[i].separatorAfter <==> i < |courses| - 1)
  {
    seq(|courses|, i requires 0 <= i < |courses| => Row(courses[i], i < |courses| - 1))
  }

  function Render(s: State): (l: Listing)
    ensures s.isLoading ==> l == LoadingCourses
    ensures !s.isLoading && |s.courses| == 0 ==> l == NoCourses
    ensures l.Rows? ==> |s.courses| > 0 && l.rows == RenderRows(s.courses)
  {
    if s.isLoading then LoadingCourses
    else if |s.courses| == 0 then NoCourses
    else Rows(RenderRows(s.courses))
  }

  /** The number of separators among rows. */
  function SeparatorCount(rows: seq<Row>): nat
    decreases |rows|
  {
    if |rows| == 0 then 0 else (if rows[0].separatorAfter then 1 else 0) + SeparatorCount(rows[1..])
  }

  /** Rows whose separator flag is set everywhere but the last carry one separator fewer than rows. */
  lemma {:induction false} SeparatorsAllButLast(rows: seq<Row>)
    requires |rows| > 0
    requires forall i :: 0 <= i < |rows| ==> (rows[i].separatorAfter <==> i < |rows| - 1)
    ensures SeparatorCount(rows) == |rows| - 1
    decreases |rows|
  {
    if |rows| > 1 {
      SeparatorsAllButLast(rows[1..]);
    }
  }

  /** A non-empty loaded list shows one row per course with a separator between neighbours. */
  lemma ListSeparators(s: State)
    requires !s.isLoading && |s.courses| > 0
    ensures Render(s).Rows? && |Render(s).rows| == |s.courses|
    ensures SeparatorCount(Render(s).rows) == |s.courses| - 1
  {
    SeparatorsAllButLast(RenderRows(s.courses));
  }
}
