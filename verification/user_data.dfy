/**
 * The pure helpers of the user-data hook (src/hooks/useUserData.tsx) over
 * the list of the user's lesson-progress records.
 */
module UserData {
  import opened CourseTypes
  import Rounding

  /** One row of the user's lesson progress. */
  datatype UserProgress = UserProgress(
    lessonId: int,
    completed: bool,
    score: Option<int>,
    completedAt: Option<string>)

  /** `getLessonProgress`: `progress.find(p => p.lesson_id === lessonId)`. */
  function GetLessonProgress(progress: seq<UserProgress>, lessonId: int): (r: Option<UserProgress>)
    ensures r.None? <==> forall i :: 0 <= i < |progress| ==> progress[i].lessonId != lessonId
    ensures r.Some? ==>
      exists i ::
        && 0 <= i < |progress|
        && progress[i] == r.value
        && r.value.lessonId == lessonId
        && forall j :: 0 <= j < i ==> progress[j].lessonId != lessonId
  {
    if progress == [] then None
    else if progress[0].lessonId == lessonId then Some(progress[0])
    else
      var r := GetLessonProgress(progress[1..], lessonId);
      assert forall i :: 0 < i < |progress| ==> progress[i] == progress[1..][i - 1];
      r
  }

  /** `getCompletedLessonsCount`: `progress.filter(p => p.completed).length`. */
  function CompletedLessonsCount(progress: seq<UserProgress>): (r: nat)
    ensures r <= |progress|
    ensures r == 0 <==> forall i :: 0 <= i < |progress| ==> !progress[i].completed
    ensures r == |progress| <==> forall i :: 0 <= i < |progress| ==> progress[i].completed
  {
    if progress == [] then 0
    else
      var rest := CompletedLessonsCount(progress[1..]);
      assert forall i :: 0 < i < |progress| ==> progress[i] == progress[1..][i - 1];
      (if progress[0].completed then 1 else 0) + rest
  }

  /** Counting the records of two lists one after the other adds up. */
  lemma {:induction false} CompletedLessonsCountAppend(a: seq<UserProgress>, b: seq<UserProgress>)
    ensures CompletedLessonsCount(a + b) == CompletedLessonsCount(a) + CompletedLessonsCount(b)
  {
    if a == [] {
      assert a + b == b;
    } else {
      assert (a + b)[1..] == a[1..] + b;
      CompletedLessonsCountAppend(a[1..], b);
    }
  }

  /**
   * `calculateProgress(totalLessons)`: 0 for no lessons (no division),
   * otherwise Math.round(completed / totalLessons * 100).
   */
  function CalculateProgress(progress: seq<UserProgress>, totalLessons: int): (r: int)
    ensures totalLessons == 0 ==> r == 0
    // Otherwise r is the integer nearest to 100 * completed / totalLessons, halves rounded up.
    ensures totalLessons > 0 ==>
      totalLessons * (2 * r - 1) <= 200 * CompletedLessonsCount(progress) < totalLessons * (2 * r + 1)
    ensures totalLessons < 0 ==>
      totalLessons * (2 * r + 1) < 200 * CompletedLessonsCount(progress) <= totalLessons * (2 * r - 1)
  {
    if totalLessons == 0 then 0
    else Rounding.Percentage(CompletedLessonsCount(progress), totalLessons)
  }

  /** With at least as many lessons as completed records, the progress lies in [0, 100]. */
  lemma CalculateProgressBounds(progress: seq<UserProgress>, totalLessons: int)
    requires CompletedLessonsCount(progress) <= totalLessons
    ensures 0 <= CalculateProgress(progress, totalLessons) <= 100
  {
    if totalLessons != 0 {
      Rounding.PercentageBounds(CompletedLessonsCount(progress), totalLessons);
    }
  }

  /** Every lesson completed gives exactly 100. */
  lemma CalculateProgressFull(progress: seq<UserProgress>, totalLessons: int)
    requires totalLessons > 0 && CompletedLessonsCount(progress) == totalLessons
    ensures CalculateProgress(progress, totalLessons) == 100
  {
    Rounding.PercentageFull(totalLessons);
  }

  /** No completed record gives 0, whatever the total. */
  lemma CalculateProgressNone(progress: seq<UserProgress>, totalLessons: int)
    requires forall i :: 0 <= i < |progress| ==> !progress[i].completed
    ensures CalculateProgress(progress, totalLessons) == 0
  {
    if totalLessons != 0 {
      Rounding.PercentageNone(totalLessons);
    }
  }

  /** Completing one more lesson never lowers the progress. */
  lemma CalculateProgressGrows(progress: seq<UserProgress>, record: UserProgress, totalLessons: int)
    requires totalLessons > 0
    ensures CalculateProgress(progress, totalLessons) <= CalculateProgress(progress + [record], totalLessons)
  {
    CompletedLessonsCountAppend(progress, [record]);
    Rounding.PercentageMonotonic(CompletedLessonsCount(progress), CompletedLessonsCount(progress + [record]), totalLessons);
  }
}
