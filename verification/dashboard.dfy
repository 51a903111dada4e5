/**
 * The pure parts of the dashboard (src/pages/DashboardPage.tsx): dropping
 * the course details whose fetch failed, the module total, the per-course
 * module count and the target of the "continue" button.
 */
module Dashboard {
  import opened CourseTypes

  /**
   * `details.filter(d => d !== null)`, where a failed detail fetch was
   * turned into null (None).
   */
  function LoadedDetails(results: seq<Option<CourseDetail>>): (r: seq<CourseDetail>)
    ensures |r| <= |results|
    ensures forall d :: d in r ==> Some(d) in results
    ensures forall i :: 0 <= i < |results| && results[i].Some? ==> results[i].value in r
  {
    if results == [] then []
    else
      var rest := LoadedDetails(results[1..]);
      assert forall i :: 0 < i < |results| ==> results[i] == results[1..][i - 1];
      if results[0].Some? then [results[0].value] + rest else rest
  }

  /** Filtering keeps the order: filtering a concatenation concatenates the filtered parts. */
  lemma {:induction false} LoadedDetailsAppend(a: seq<Option<CourseDetail>>, b: seq<Option<CourseDetail>>)
    ensures LoadedDetails(a + b) == LoadedDetails(a) + LoadedDetails(b)
  {
    if a == [] {
      assert a + b == b;
    } else {
      assert (a + b)[1..] == a[1..] + b;
      LoadedDetailsAppend(a[1..], b);
    }
  }

  /** A loaded detail is kept, a failed one dropped. */
  lemma LoadedDetailsSingle(result: Option<CourseDetail>)
    ensures result.Some? ==> LoadedDetails([result]) == [result.value]
    ensures result.None? ==> LoadedDetails([result]) == []
  {
    assert [result][1..] == [];
  }

  /** When every fetch succeeded nothing is dropped. */
  lemma {:induction false} AllLoaded(results: seq<Option<CourseDetail>>)
    requires forall i :: 0 <= i < |results| ==> results[i].Some?
    ensures |LoadedDetails(results)| == |results|
    ensures forall i :: 0 <= i < |results| ==> LoadedDetails(results)[i] == results[i].value
  {
    if results != [] {
      AllLoaded(results[1..]);
    }
  }

  /** `course.modules?.length || 0`. */
  function ModuleCount(detail: CourseDetail): (r: nat)
    ensures detail.modules.None? ==> r == 0
    ensures detail.modules.Some? ==> r == |detail.modules.value|
  {
    match detail.modules
    case None => 0
    case Some(modules) => |modules|
  }

  /** `getTotalModules`: the module counts summed over the loaded details. */
  function TotalModules(details: seq<CourseDetail>): (r: nat)
    ensures r == 0 <==> forall i :: 0 <= i < |details| ==> ModuleCount(details[i]) == 0
  {
    if details == [] then 0
    else
      var rest := TotalModules(details[1..]);
      assert forall i :: 0 < i < |details| ==> details[i] == details[1..][i - 1];
      ModuleCount(details[0]) + rest
  }

  lemma {:induction false} TotalModulesAppend(a: seq<CourseDetail>, b: seq<CourseDetail>)
    ensures TotalModules(a + b) == TotalModules(a) + TotalModules(b)
  {
    if a == [] {
      assert a + b == b;
    } else {
      assert (a + b)[1..] == a[1..] + b;
      TotalModulesAppend(a[1..], b);
    }
  }

  /** Every loaded course contributes its modules to the total. */
  lemma {:induction false} TotalModulesBounds(details: seq<CourseDetail>, i: nat)
    requires i < |details|
    ensures ModuleCount(details[i]) <= TotalModules(details)
  {
    if i > 0 {
      TotalModulesBounds(details[1..], i - 1);
    }
  }

  /** `courseDetails.find(d => d.id === courseId)`. */
  function FindDetail(details: seq<CourseDetail>, courseId: int): (r: Option<CourseDetail>)
    ensures r.None? <==> forall i :: 0 <= i < |details| ==> details[i].id != courseId
    ensures r.Some? ==>
      exists i ::
        && 0 <= i < |details|
        && details[i] == r.value
        && r.value.id == courseId
        && forall j :: 0 <= j < i ==> details[j].id != courseId
  {
    if details == [] then None
    else if details[0].id == courseId then Some(details[0])
    else
      var r := FindDetail(details[1..], courseId);
      assert forall i :: 0 < i < |details| ==> details[i] == details[1..][i - 1];
      r
  }

  /** `detail?.modules?.length || 0`: the module count shown on a course's row. */
  function DisplayedModuleCount(details: seq<CourseDetail>, course: Course): (r: nat)
    ensures (forall i :: 0 <= i < |details| ==> details[i].id != course.id) ==> r == 0
    ensures r <= TotalModules(details)
  {
    match FindDetail(details, course.id)
    case None => 0
    case Some(detail) =>
      var i :| 0 <= i < |details| && details[i] == detail;
      TotalModulesBounds(details, i);
      ModuleCount(detail)
  }

  /** The row of a course shows the module count of the first loaded detail with its id. */
  lemma DisplayedModuleCountOfFirst(details: seq<CourseDetail>, course: Course, i: nat)
    requires i < |details| && details[i].id == course.id
    requires forall j :: 0 <= j < i ==> details[j].id != course.id
    ensures DisplayedModuleCount(details, course) == ModuleCount(details[i])
  {
    var r := FindDetail(details, course.id);
    var k :| 0 <= k < |details| && details[k] == r.value && r.value.id == course.id
      && forall j :: 0 <= j < k ==> details[j].id != course.id;
    assert !(k < i) && !(i < k);
  }

  /** The "continue" quick action: the first course's id, nothing when there is no course. */
  function ContinueTarget(courses: seq<Course>): (r: Option<int>)
    ensures r.None? <==> courses == []
    ensures r.Some? ==> r.value == courses[0].id
  {
    if |courses| > 0 then Some(courses[0].id) else None
  }
}
