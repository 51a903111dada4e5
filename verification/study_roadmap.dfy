/**
 * The 25-day study roadmap (src/components/StudyRoadmap25Days.tsx): a fixed
 * plan of weeks and days, the progress figures computed from it, the
 * status-to-icon and status-to-colour mappings, the controls shown per day
 * and the lesson type a day's "learn now" button opens.
 */
module StudyRoadmap {
  import opened CourseTypes
  import Rounding

  /** One day of the plan; `status` is "completed", "current" or "locked" in the plan. */
  datatype Day = Day(day: int, topic: string, status: string, score: Option<int>)

  datatype Week = Week(week: int, title: string, days: seq<Day>)

  /** `weeks.flatMap(week => week.days)`. */
  function AllDays(weeks: seq<Week>): (r: seq<Day>)
    ensures forall i, j :: 0 <= i < |weeks| && 0 <= j < |weeks[i].days| ==> weeks[i].days[j] in r
    ensures forall d :: d in r ==> exists i :: 0 <= i < |weeks| && d in weeks[i].days
  {
    if weeks == [] then []
    else
      var rest := AllDays(weeks[1..]);
      assert forall i :: 0 < i < |weeks| ==> weeks[i] == weeks[1..][i - 1];
      weeks[0].days + rest
  }

  /** `days.filter(day => day.status === "completed").length`. */
  function CountCompleted(days: seq<Day>): (r: nat)
    ensures r <= |days|
    ensures r == 0 <==> forall i :: 0 <= i < |days| ==> days[i].status != "completed"
  {
    if days == [] then 0
    else
      var rest := CountCompleted(days[1..]);
      assert forall i :: 0 < i < |days| ==> days[i] == days[1..][i - 1];
      (if days[0].status == "completed" then 1 else 0) + rest
  }

  lemma {:induction false} CountCompletedAppend(a: seq<Day>, b: seq<Day>)
    ensures CountCompleted(a + b) == CountCompleted(a) + CountCompleted(b)
  {
    if a == [] {
      assert a + b == b;
    } else {
      assert (a + b)[1..] == a[1..] + b;
      CountCompletedAppend(a[1..], b);
    }
  }

  /** `totalDays`. */
  function TotalDays(weeks: seq<Week>): (r: nat)
    ensures r == 0 <==> forall i :: 0 <= i < |weeks| ==> weeks[i].days == []
  {
    var days := AllDays(weeks);
    assert days != [] ==> days[0] in days;
    assert forall i :: 0 <= i < |weeks| && weeks[i].days != [] ==> weeks[i].days[0] in days;
    |days|
  }

  /** `completedDays`; never more than `totalDays`, so the days-left figure is never negative. */
  function CompletedDays(weeks: seq<Week>): (r: nat)
    ensures r <= TotalDays(weeks)
  {
    CountCompleted(AllDays(weeks))
  }

  /**
   * `progressPercentage`: Math.round(completedDays / totalDays * 100).
   * With no days at all JavaScript computes 0 / 0, NaN, which is None here.
   */
  function ProgressPercentage(weeks: seq<Week>): (r: Option<int>)
    ensures r.None? <==> TotalDays(weeks) == 0
  {
    if TotalDays(weeks) == 0 then None
    else Some(Rounding.Percentage(CompletedDays(weeks), TotalDays(weeks)))
  }

  /** For a non-empty plan the percentage is a number between 0 and 100. */
  lemma ProgressPercentageRange(weeks: seq<Week>)
    requires TotalDays(weeks) > 0
    ensures ProgressPercentage(weeks).Some?
    ensures 0 <= ProgressPercentage(weeks).value <= 100
  {
    Rounding.PercentageBounds(CompletedDays(weeks), TotalDays(weeks));
  }

  /** The per-week badge "completed/length". */
  function WeekCompleted(week: Week): (r: nat)
    ensures r <= |week.days|
  {
    CountCompleted(week.days)
  }

  function SumWeekCompleted(weeks: seq<Week>): nat
  {
    if weeks == [] then 0 else WeekCompleted(weeks[0]) + SumWeekCompleted(weeks[1..])
  }

  function SumWeekLengths(weeks: seq<Week>): nat
  {
    if weeks == [] then 0 else |weeks[0].days| + SumWeekLengths(weeks[1..])
  }

  /** The per-week badges add up to the overall figures. */
  lemma {:induction false} WeeksAddUp(weeks: seq<Week>)
    ensures CompletedDays(weeks) == SumWeekCompleted(weeks)
    ensures TotalDays(weeks) == SumWeekLengths(weeks)
  {
    if weeks != [] {
      CountCompletedAppend(weeks[0].days, AllDays(weeks[1..]));
      WeeksAddUp(weeks[1..]);
    }
  }

  // ---------------------------------------------------------------------
  // Status mappings
  // ---------------------------------------------------------------------

  datatype StatusIcon = CheckCircleIcon | PlayIcon | EmptyCircleIcon

  /** `getStatusIcon`. */
  function GetStatusIcon(status: string): (r: StatusIcon)
    ensures r == CheckCircleIcon <==> status == "completed"
    ensures r == PlayIcon <==> status == "current"
    ensures r == EmptyCircleIcon <==> status != "completed" && status != "current"
  {
    match status
    case "completed" => CheckCircleIcon
    case "current" => PlayIcon
    case _ => EmptyCircleIcon
  }

  const CompletedColor: string := "bg-green-50 border-green-200"
  const CurrentColor: string := "bg-blue-50 border-blue-200"
  const DefaultColor: string := "bg-gray-50 border-gray-200"

  /** `getStatusColor`. */
  function GetStatusColor(status: string): (r: string)
    ensures r in {CompletedColor, CurrentColor, DefaultColor}
    ensures r == CompletedColor <==> status == "completed"
    ensures r == CurrentColor <==> status == "current"
    ensures r == DefaultColor <==> status != "completed" && status != "current"
  {
    match status
    case "completed" => CompletedColor
    case "current" => CurrentColor
    case _ => DefaultColor
  }

  /** The two switches split the statuses the same way: a day's colour always goes with its icon. */
  lemma IconAndColorAgree(status: string)
    ensures GetStatusIcon(status) == CheckCircleIcon <==> GetStatusColor(status) == CompletedColor
    ensures GetStatusIcon(status) == PlayIcon <==> GetStatusColor(status) == CurrentColor
    ensures GetStatusIcon(status) == EmptyCircleIcon <==> GetStatusColor(status) == DefaultColor
  {
  }

  // ---------------------------------------------------------------------
  // Day controls and routing
  // ---------------------------------------------------------------------

  datatype LessonType = Writing | Listening | Reading

  /**
   * The lesson type a day opens: divisible by 3 is writing (this is tested
   * first, so day 6 is writing), otherwise even is listening, otherwise
   * reading. Divisibility reads the same under JavaScript's truncating `%`
   * and Dafny's Euclidean `%`.
   */
  function LessonTypeFor(day: int): (r: LessonType)
    ensures r == Writing <==> day % 3 == 0
    ensures r == Listening <==> day % 3 != 0 && day % 2 == 0
    ensures r == Reading <==> day % 3 != 0 && day % 2 != 0
  {
    if day % 3 == 0 then Writing else if day % 2 == 0 then Listening else Reading
  }

  datatype DayControl = CompletedBadge | LearnNowButton(lessonType: LessonType) | LockedButton

  /** The three independent conditionals on a day's status. */
  function DayControls(d: Day): (r: set<DayControl>)
    ensures |r| <= 1
    ensures r == {} <==> d.status !in {"completed", "current", "locked"}
    ensures d.status == "completed" ==> r == {CompletedBadge}
    ensures d.status == "current" ==> r == {LearnNowButton(LessonTypeFor(d.day))}
    ensures d.status == "locked" ==> r == {LockedButton}
  {
    (if d.status == "completed" then {CompletedBadge} else {})
    + (if d.status == "current" then {LearnNowButton(LessonTypeFor(d.day))} else {})
    + (if d.status == "locked" then {LockedButton} else {})
  }

  // ---------------------------------------------------------------------
  // The plan as shipped
  // ---------------------------------------------------------------------

  function Locked(day: int, topic: string): Day
  {
    Day(day, topic, "locked", None)
  }

  const Week1: Week := Week(1, "Tuần 1: Nền tảng từ vựng", [
    Day(1, "Giới thiệu bản thân", "completed", Some(92)),
    Day(2, "Gia đình và quan hệ", "completed", Some(88)),
    Day(3, "Công việc hàng ngày", "completed", Some(85)),
    Day(4, "Thời gian và lịch trình", "current", None),
    Locked(5, "Thực phẩm và đồ uống"),
    Locked(6, "Mua sắm cơ bản"),
    Locked(7, "Ôn tập tuần 1")])

  const Week2: Week := Week(2, "Tuần 2: Giao tiếp thường ngày", [
    Locked(8, "Hỏi đường và chỉ đường"),
    Locked(9, "Gọi điện thoại"),
    Locked(10, "Đặt lịch hẹn"),
    Locked(11, "Thảo luận kế hoạch"),
    Locked(12, "Mô tả trải nghiệm"),
    Locked(13, "Đưa ra ý kiến"),
    Locked(14, "Kiểm tra giữa khóa")])

  const Week3: Week := Week(3, "Tuần 3: Kỹ năng nghe nâng cao", [
    Locked(15, "Nghe hội thoại công việc"),
    Locked(16, "Nghe thông báo"),
    Locked(17, "Nghe báo cáo"),
    Locked(18, "Nghe thuyết trình"),
    Locked(19, "Nghe phỏng vấn"),
    Locked(20, "Luyện nghe tổng hợp"),
    Locked(21, "Ôn tập tuần 3")])

  const Week4: Week := Week(4, "Tuần 4: Tổng hợp và thực hành", [
    Locked(22, "Thi thử TOEIC Listening"),
    Locked(23, "Thi thử TOEIC Reading"),
    Locked(24, "Phân tích kết quả"),
    Locked(25, "Hoàn thành khóa học")])

  const Plan: seq<Week> := [Week1, Week2, Week3, Week4]

  lemma Week1Figures()
    ensures |Week1.days| == 7 && WeekCompleted(Week1) == 3
  {
    var d := Week1.days;
    assert d[3..][1..] == d[4..] && d[4..][1..] == d[5..] && d[5..][1..] == d[6..];
    assert CountCompleted(d[4..]) == 0;
    assert d[1..][1..] == d[2..] && d[2..][1..] == d[3..];
  }

  /** No day is completed in a week made only of locked days. */
  lemma LockedWeek(w: Week)
    requires forall i :: 0 <= i < |w.days| ==> w.days[i].status == "locked"
    ensures WeekCompleted(w) == 0
  {
  }

  lemma Week2Figures()
    ensures |Week2.days| == 7 && WeekCompleted(Week2) == 0
  {
    LockedWeek(Week2);
  }

  lemma Week3Figures()
    ensures |Week3.days| == 7 && WeekCompleted(Week3) == 0
  {
    LockedWeek(Week3);
  }

  lemma Week4Figures()
    ensures |Week4.days| == 4 && WeekCompleted(Week4) == 0
  {
    LockedWeek(Week4);
  }

  /** The sums over a plan of four weeks, week by week. */
  lemma FourWeekSums(w1: Week, w2: Week, w3: Week, w4: Week)
    ensures SumWeekLengths([w1, w2, w3, w4]) == |w1.days| + |w2.days| + |w3.days| + |w4.days|
    ensures SumWeekCompleted([w1, w2, w3, w4]) ==
      WeekCompleted(w1) + WeekCompleted(w2) + WeekCompleted(w3) + WeekCompleted(w4)
  {
    assert [w4][1..] == [];
    assert SumWeekLengths([w4]) == |w4.days| && SumWeekCompleted([w4]) == WeekCompleted(w4);
    assert [w3, w4][1..] == [w4];
    assert SumWeekLengths([w3, w4]) == |w3.days| + SumWeekLengths([w4]);
    assert SumWeekCompleted([w3, w4]) == WeekCompleted(w3) + SumWeekCompleted([w4]);
    assert [w2, w3, w4][1..] == [w3, w4];
    assert SumWeekLengths([w2, w3, w4]) == |w2.days| + SumWeekLengths([w3, w4]);
    assert SumWeekCompleted([w2, w3, w4]) == WeekCompleted(w2) + SumWeekCompleted([w3, w4]);
    assert [w1, w2, w3, w4][1..] == [w2, w3, w4];
  }

  /** The per-week badges of the shipped plan add up to 25 days, 3 of them completed. */
  lemma PlanSums()
    ensures SumWeekLengths(Plan) == 25
    ensures SumWeekCompleted(Plan) == 3
  {
    Week1Figures();
    Week2Figures();
    Week3Figures();
    Week4Figures();
    FourWeekSums(Week1, Week2, Week3, Week4);
  }

  /** The figures shown for any plan of 25 days of which 3 are completed. */
  lemma FiguresOf(weeks: seq<Week>)
    requires SumWeekLengths(weeks) == 25 && SumWeekCompleted(weeks) == 3
    ensures TotalDays(weeks) == 25
    ensures CompletedDays(weeks) == 3
    ensures ProgressPercentage(weeks) == Some(12)
  {
    WeeksAddUp(weeks);
  }

  /** The shipped plan: 3 of 25 days done (12%), 22 left, and the current day 4 opens a listening lesson. */
  lemma PlanFigures()
    ensures TotalDays(Plan) == 25
    ensures CompletedDays(Plan) == 3
    ensures ProgressPercentage(Plan) == Some(12)
    ensures DayControls(Week1.days[3]) == {LearnNowButton(Listening)}
  {
    PlanSums();
    FiguresOf(Plan);
  }
}
