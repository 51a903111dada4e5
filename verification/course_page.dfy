/**
 * The pure parts of the course page (src/pages/CourseDetailPage.tsx): the
 * lesson total over the course's modules and what a module's section shows.
 */
module CoursePage {
  import opened CourseTypes

  /** `course.modules.reduce((acc, m) => acc + m.lessons.length, 0)`. */
  function TotalLessons(modules: seq<Module>): (r: nat)
    ensures r == 0 <==> forall i :: 0 <= i < |modules| ==> modules[i].lessons == []
  {
    if modules == [] then 0
    else
      var rest := TotalLessons(modules[1..]);
      assert forall i :: 0 < i < |modules| ==> modules[i] == modules[1..][i - 1];
      |modules[0].lessons| + rest
  }

  lemma {:induction false} TotalLessonsAppend(a: seq<Module>, b: seq<Module>)
    ensures TotalLessons(a + b) == TotalLessons(a) + TotalLessons(b)
  {
    if a == [] {
      assert a + b == b;
    } else {
      assert (a + b)[1..] == a[1..] + b;
      TotalLessonsAppend(a[1..], b);
    }
  }

  /** No module has more lessons than the course total. */
  lemma {:induction false} ModuleWithinTotal(modules: seq<Module>, i: nat)
    requires i < |modules|
    ensures |modules[i].lessons| <= TotalLessons(modules)
  {
    if i > 0 {
      ModuleWithinTotal(modules[1..], i - 1);
    }
  }

  /** What a module's accordion section shows. */
  datatype ModuleBody = NoLessonsYet | LessonCards(lessons: seq<Lesson>)

  /** The placeholder for an empty module, otherwise one card per lesson in order. */
  function ModuleSection(m: Module): (r: ModuleBody)
    ensures r == NoLessonsYet <==> m.lessons == []
    ensures r.LessonCards? ==> r.lessons == m.lessons
  {
    if |m.lessons| == 0 then NoLessonsYet else LessonCards(m.lessons)
  }
}
