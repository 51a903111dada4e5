/**
 * The level overview (src/components/StudyLevels.tsx): a fixed list of
 * levels with a progress percentage each, the current level, the status
 * badge, card tint and action buttons derived from the progress, and the
 * per-topic completion marker.
 */
module StudyLevels {

  /** A level card's data (its colour, duration, target score and skills are display text only). */
  datatype Level = Level(
    id: string,
    name: string,
    progress: int,
    lessons: seq<string>,
    completed: int,
    total: int)

  predicate InProgress(level: Level)
  {
    0 < level.progress < 100
  }

  /** `levels.findIndex(l => l.progress > 0 && l.progress < 100)`, -1 when there is none. */
  function FirstInProgress(levels: seq<Level>): (r: int)
    ensures -1 <= r < |levels|
    ensures r == -1 <==> forall i :: 0 <= i < |levels| ==> !InProgress(levels[i])
    ensures r >= 0 ==> InProgress(levels[r]) && forall i :: 0 <= i < r ==> !InProgress(levels[i])
  {
    if levels == [] then -1
    else if InProgress(levels[0]) then 0
    else
      var k := FirstInProgress(levels[1..]);
      assert forall i :: 0 < i < |levels| ==> levels[i] == levels[1..][i - 1];
      if k == -1 then -1 else k + 1
  }

  /** `getCurrentLevel`: the first level in progress, or the first level when none is. */
  function GetCurrentLevel(levels: seq<Level>): (r: Level)
    requires |levels| > 0
    ensures (forall i :: 0 <= i < |levels| ==> !InProgress(levels[i])) ==> r == levels[0]
    ensures (exists i :: 0 <= i < |levels| && InProgress(levels[i])) ==>
      && InProgress(r)
      && exists i :: 0 <= i < |levels| && levels[i] == r && forall j :: 0 <= j < i ==> !InProgress(levels[j])
  {
    var k := FirstInProgress(levels);
    if k >= 0 then levels[k] else levels[0]
  }

  // ---------------------------------------------------------------------
  // Badge, tint and buttons derived from the progress
  // ---------------------------------------------------------------------

  datatype Badge = CompletedBadge | InProgressBadge | NotStartedBadge

  /** The badges shown: three independent conditionals on the progress. */
  function Badges(progress: int): (r: set<Badge>)
    ensures CompletedBadge in r <==> progress == 100
    ensures InProgressBadge in r <==> 0 < progress < 100
    ensures NotStartedBadge in r <==> progress == 0
  {
    (if progress == 100 then {CompletedBadge} else {})
    + (if 0 < progress < 100 then {InProgressBadge} else {})
    + (if progress == 0 then {NotStartedBadge} else {})
  }

  /** For a progress in [0, 100] exactly one badge shows: 100 completed, 0 not started, otherwise in progress. */
  lemma ExactlyOneBadge(progress: int)
    requires 0 <= progress <= 100
    ensures |Badges(progress)| == 1
    ensures Badges(progress) == {CompletedBadge} <==> progress == 100
    ensures Badges(progress) == {NotStartedBadge} <==> progress == 0
    ensures Badges(progress) == {InProgressBadge} <==> 0 < progress < 100
  {
  }

  /** Outside [0, 100] no badge shows at all. */
  lemma NoBadgeOutOfRange(progress: int)
    requires progress < 0 || progress > 100
    ensures Badges(progress) == {}
  {
  }

  datatype Tint = GreenTint | BlueTint | GrayTint

  /** The card background: 100 green, above 0 blue, otherwise gray. */
  function CardTint(progress: int): (r: Tint)
    ensures r == GreenTint <==> progress == 100
    ensures r == BlueTint <==> progress > 0 && progress != 100
    ensures r == GrayTint <==> progress <= 0
  {
    if progress == 100 then GreenTint else if progress > 0 then BlueTint else GrayTint
  }

  /** On [0, 100] the tint follows the same three-way split as the badge. */
  lemma TintFollowsBadge(progress: int)
    requires 0 <= progress <= 100
    ensures CardTint(progress) == GreenTint <==> CompletedBadge in Badges(progress)
    ensures CardTint(progress) == BlueTint <==> InProgressBadge in Badges(progress)
    ensures CardTint(progress) == GrayTint <==> NotStartedBadge in Badges(progress)
  {
  }

  /** The progress-dependent action buttons of a level card. */
  datatype Action = ContinueButton | StartLevelButton | CertificateButton

  /**
   * The progress-dependent buttons of card `index`: continue while in
   * progress, start on a not-started level right after the first level in
   * progress (index 0 when none is), certificate when complete.
   */
  function Actions(levels: seq<Level>, index: nat): (r: set<Action>)
    requires index < |levels|
    ensures ContinueButton in r <==> InProgress(levels[index])
    ensures CertificateButton in r <==> levels[index].progress == 100
    ensures StartLevelButton in r <==> levels[index].progress == 0 && index == FirstInProgress(levels) + 1
  {
    var p := levels[index].progress;
    (if 0 < p < 100 then {ContinueButton} else {})
    + (if p == 0 && index == FirstInProgress(levels) + 1 then {StartLevelButton} else {})
    + (if p == 100 then {CertificateButton} else {})
  }

  /** Continue shows exactly on a level in progress, the certificate exactly on a completed one. */
  lemma ContinueAndCertificate(levels: seq<Level>, index: nat)
    requires index < |levels|
    ensures ContinueButton in Actions(levels, index) <==> InProgress(levels[index])
    ensures CertificateButton in Actions(levels, index) <==> levels[index].progress == 100
    ensures |Actions(levels, index)| <= 1
  {
  }

  /**
   * At most one card offers "start this level": the not-started level right
   * after the first level in progress, or the first level when none is in
   * progress.
   */
  lemma StartLevelPlacement(levels: seq<Level>, i: nat, j: nat)
    requires i < |levels| && j < |levels|
    requires StartLevelButton in Actions(levels, i) && StartLevelButton in Actions(levels, j)
    ensures i == j
    ensures levels[i].progress == 0
    ensures i == 0 <==> forall k :: 0 <= k < |levels| ==> !InProgress(levels[k])
    ensures i > 0 ==> InProgress(levels[i - 1]) && forall k :: 0 <= k < i - 1 ==> !InProgress(levels[k])
  {
  }

  // ---------------------------------------------------------------------
  // Topic markers
  // ---------------------------------------------------------------------

  datatype TopicMarker = DoneMarker | CurrentMarker | PendingMarker

  /** The marker of topic `lessonIndex` of a level with `completed` lessons done. */
  function TopicMarkerAt(lessonIndex: nat, completed: int): (r: TopicMarker)
    ensures r == DoneMarker <==> lessonIndex < completed
    ensures r == CurrentMarker <==> lessonIndex == completed
  {
    if lessonIndex < completed then DoneMarker
    else if lessonIndex == completed then CurrentMarker
    else PendingMarker
  }

  /** The topic title is struck through exactly when its marker is the done mark. */
  function StruckThrough(lessonIndex: nat, completed: int): (r: bool)
    ensures r <==> TopicMarkerAt(lessonIndex, completed) == DoneMarker
  {
    lessonIndex < completed
  }

  /** The markers of a level's topic list. */
  function TopicMarkers(level: Level): (r: seq<TopicMarker>)
    ensures |r| == |level.lessons|
    ensures forall i :: 0 <= i < |r| ==> r[i] == TopicMarkerAt(i, level.completed)
  {
    seq(|level.lessons|, i requires 0 <= i => TopicMarkerAt(i, level.completed))
  }

  /**
   * At most one topic is marked current, and one is exactly when the
   * completed count points inside the topic list.
   */
  lemma OneCurrentTopic(level: Level)
    ensures forall i, j ::
      0 <= i < j < |level.lessons| ==>
        !(TopicMarkers(level)[i] == CurrentMarker && TopicMarkers(level)[j] == CurrentMarker)
    ensures (exists i :: 0 <= i < |level.lessons| && TopicMarkers(level)[i] == CurrentMarker)
      <==> 0 <= level.completed < |level.lessons|
  {
    var m := TopicMarkers(level);
    if 0 <= level.completed < |level.lessons| {
      assert m[level.completed] == CurrentMarker;
    }
  }

  // ---------------------------------------------------------------------
  // The levels as shipped
  // ---------------------------------------------------------------------

  const A1: Level := Level("A1", "A1 - Cơ bản", 85,
    ["Giới thiệu bản thân", "Gia đình và bạn bè", "Công việc hàng ngày", "Mua sắm cơ bản", "Thời gian và ngày tháng"],
    17, 20)

  const A2: Level := Level("A2", "A2 - Sơ cấp", 45,
    ["Giao tiếp điện thoại", "Đặt lịch hẹn", "Thảo luận kế hoạch", "Mô tả trải nghiệm", "Đưa ra ý kiến"],
    9, 20)

  const B1: Level := Level("B1", "B1 - Trung cấp", 0,
    ["Họp và thảo luận", "Thuyết trình dự án", "Đàm phán kinh doanh", "Báo cáo kết quả", "Giải quyết vấn đề"],
    0, 25)

  const Levels: seq<Level> := [A1, A2, B1]

  /**
   * The shipped levels: A1 is the current level; no card offers "start this
   * level" (the slot after A1 is A2, which is already in progress); B1 shows
   * the not-started badge and marks its first topic current.
   */
  lemma ShippedLevels()
    ensures GetCurrentLevel(Levels) == A1
    ensures forall i :: 0 <= i < |Levels| ==> StartLevelButton !in Actions(Levels, i)
    ensures Actions(Levels, 0) == {ContinueButton} && Actions(Levels, 1) == {ContinueButton}
    ensures Badges(B1.progress) == {NotStartedBadge}
    ensures TopicMarkers(B1)[0] == CurrentMarker
  {
    assert FirstInProgress(Levels) == 0;
  }
}
