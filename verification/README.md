# TOEIC learning app: client-side logic in Dafny

This project models the deterministic client logic of an English/TOEIC
learning single-page application, and proves its properties. The app is a
catalog of courses, modules and lessons, with a lesson page holding videos
and an exercise quiz, a dashboard, a 25-day study roadmap and a level
overview. Most of the application is presentation and remote-API plumbing.
What is modelled here is the logic that computes something:

- **Lesson quiz session** (`lesson_quiz.dfy`, module `LessonQuiz`).
  - The lesson's exercise groups are flattened into one exercise list.
  - The session has five fields: current question index, selected option,
    explanation flag, score, and the set of answered indices.
  - Three handlers act on the session: choose an option, check the answer,
    go to the next question. Each is a pure step function.
  - The class `QuizSession` holds the five fields as mutable state. Its
    methods are proved to perform exactly those steps and to keep the
    session invariant.
  - The answer-option highlighting is modelled as well.
- **Drive URL rewrite** (`drive_embed.dfy`, module `DriveEmbed`): a Google
  Drive file or folder share link is turned into its embeddable URL; any
  other URL is kept unchanged.
- **Progress helpers**:
  - the user's lesson-progress records (`user_data.dfy`, `UserData`);
  - the roadmap counters and percentage (`study_roadmap.dfy`, `StudyRoadmap`);
  - the dashboard's module totals (`dashboard.dfy`, `Dashboard`);
  - a course's lesson total (`course_page.dfy`, `CoursePage`).
- **Status classification**:
  - the roadmap's icon, colour and per-day controls, and the day-to-lesson-type routing;
  - the level overview's current level, badge, card tint, buttons and topic markers (`study_levels.dfy`, `StudyLevels`).

Two modules are shared by the others:

- `course_types.dfy` (`CourseTypes`) holds the course, lesson and exercise
  records.
- `rounding.dfy` (`Rounding`) models `Math.round` applied to a quotient of
  integers. It is computed exactly, as the nearest integer with halves
  rounded up.

The shipped data is modelled as constants, and its displayed figures are
proved:

- the roadmap has 25 days, 3 of them completed, which shows 12 %;
- on the levels page A1 is the current level.

## Model

| member | source | states |
|---|---|---|
| Rounding.RoundQuotient | src/hooks/useUserData.tsx:172 | `Math.round(a / b)` computed exactly: for b > 0, r is the integer with r - 1/2 <= a/b < r + 1/2 (halves round up), and the mirrored bounds hold for b < 0 |
| Rounding.Percentage | src/hooks/useUserData.tsx:172 | `Math.round(c / t * 100)`: the integer nearest to 100 * c / t, halves rounded up, for either sign of t |
| Rounding.PercentageBounds | src/hooks/useUserData.tsx:172 | a share 0 <= c <= t of t > 0 rounds to a percentage in [0, 100] |
| Rounding.PercentageFull | src/hooks/useUserData.tsx:172 | t out of t rounds to exactly 100 |
| Rounding.PercentageNone | src/hooks/useUserData.tsx:172 | 0 out of any non-zero t rounds to 0 |
| Rounding.PercentageMonotonic | src/hooks/useUserData.tsx:172 | more completed items never lower the rounded percentage |
| LessonQuiz.AllExercises | src/pages/LessonDetailPage.tsx:81 | `flatMap` of the groups: every exercise of every group is in the list, and every exercise in the list comes from some group |
| LessonQuiz.AllExercisesLength | src/pages/LessonDetailPage.tsx:81 | the flattened exercise list is as long as the group sizes summed |
| LessonQuiz.AllExercisesAppend | src/pages/LessonDetailPage.tsx:81 | flattening two runs of groups concatenates their exercise lists |
| LessonQuiz.AllExercisesAt | src/pages/LessonDetailPage.tsx:81 | exercise j of group i sits at position (sizes of groups before i) + j: group order first, then order inside the group |
| LessonQuiz.SelectStep | src/pages/LessonDetailPage.tsx:214-232 | choosing an option sets only the selection, and does nothing while the explanation shows (radio items disabled) |
| LessonQuiz.SubmitStep | src/pages/LessonDetailPage.tsx:84-98 | with no selection, only the "choose an answer" toast and no state change; otherwise the explanation shows, the index joins the answered set, and the score rises by exactly 1 iff the index was not answered and the selection equals `correctOption` exactly |
| LessonQuiz.NextStep | src/pages/LessonDetailPage.tsx:100-108 | before the last question: index + 1, selection and explanation cleared, score and answered set kept; at the last question: no state change, a "score/total" toast; the index stays below the total |
| LessonQuiz.SubmitIdempotent | src/pages/LessonDetailPage.tsx:92-97 | checking again at the same index changes neither score nor answered set |
| LessonQuiz.MarkOf | src/pages/LessonDetailPage.tsx:218-241 | nothing is highlighted before the check; afterwards the correct option is marked correct and a different selected option is marked wrong |
| LessonQuiz.MarksAfterSubmit | src/pages/LessonDetailPage.tsx:218-241 | after a check, an option is marked wrong iff the selection missed, and only the selected one; the correct option is marked whenever it is one of A-D |
| LessonQuiz.StartConsistent | src/pages/LessonDetailPage.tsx:20-24 | the initial field values satisfy the session invariant for a non-empty list |
| LessonQuiz.SelectKeepsConsistent | src/pages/LessonDetailPage.tsx:214-232 | choosing one of A-D keeps the session invariant |
| LessonQuiz.SubmitKeepsConsistent | src/pages/LessonDetailPage.tsx:84-98 | checking the answer keeps the session invariant |
| LessonQuiz.NextKeepsConsistent | src/pages/LessonDetailPage.tsx:100-108 | moving on keeps the session invariant, so the index stays in [0, length) |
| LessonQuiz.ConsistentBounds | src/pages/LessonDetailPage.tsx:92-104 | score <= number answered <= index + 1 <= number of exercises, and every answered index is below the length |
| LessonQuiz.SubmitKeepsInOrder | src/pages/LessonDetailPage.tsx:262-270 | with check offered only while the explanation is hidden, the answered set stays "all earlier indices, plus the current one once revealed" |
| LessonQuiz.NextKeepsInOrder | src/pages/LessonDetailPage.tsx:262-270 | with next offered only while the explanation shows, the same in-order shape is kept |
| LessonQuiz.InOrderCount | src/pages/LessonDetailPage.tsx:92-104 | under that wiring the number of answered questions is exactly the progress through the list |
| LessonQuiz.QuizScore | src/pages/LessonDetailPage.tsx:84-108 | answering every question once, in order, from a fresh session scores exactly the number of answers equal to the correct option, at most the number of exercises |
| LessonQuiz.PlayScore | src/pages/LessonDetailPage.tsx:84-108 | from any in-order point, the rest of a run adds exactly the matches on the remaining exercises |
| LessonQuiz.QuizSession.constructor | src/pages/LessonDetailPage.tsx:20-24 | a session over a lesson with at least one exercise starts from the initial fields over the flattened list, and is valid |
| LessonQuiz.QuizSession.SelectAnswer | src/pages/LessonDetailPage.tsx:214-232 | updates the fields exactly as `SelectStep` and keeps the invariant |
| LessonQuiz.QuizSession.SubmitAnswer | src/pages/LessonDetailPage.tsx:84-98 | updates the fields and raises the toast exactly as `SubmitStep`, keeps the invariant, and leaves score <= answered <= length |
| LessonQuiz.QuizSession.NextQuestion | src/pages/LessonDetailPage.tsx:100-108 | updates the fields and raises the toast exactly as `NextStep`, and keeps the invariant |
| DriveEmbed.IdRun | src/pages/LessonDetailPage.tsx:112 | the greedy `[a-zA-Z0-9_-]*` run: the longest prefix made only of identifier characters (empty when the string starts with another character; the at-least-one requirement of `+` is `MatchAt`'s) |
| DriveEmbed.FindId | src/pages/LessonDetailPage.tsx:112 | a found capture is non-empty and made only of identifier characters |
| DriveEmbed.FindIdNone | src/pages/LessonDetailPage.tsx:112-113 | the search fails iff the marker followed by an identifier character occurs nowhere |
| DriveEmbed.FindIdLeftmost | src/pages/LessonDetailPage.tsx:112 | the search returns the maximal identifier run after the leftmost match |
| DriveEmbed.LeftmostCapture | src/pages/LessonDetailPage.tsx:112 | the same, for a search from the start of the URL |
| DriveEmbed.EmbedUrl | src/pages/LessonDetailPage.tsx:110-125 | `getGoogleDriveEmbedUrl`: the result is the URL itself, a preview URL of a non-empty identifier, or an embedded-folder URL of one (which case applies is stated by the three lemmas below) |
| DriveEmbed.EmbedFileLink | src/pages/LessonDetailPage.tsx:112-115 | a file link becomes `https://drive.google.com/file/d/<id>/preview`, with id taken after the leftmost `/file/d/` |
| DriveEmbed.EmbedFolderLink | src/pages/LessonDetailPage.tsx:118-121 | without a file id, a folder link becomes `https://drive.google.com/embeddedfolderview?id=<id>#grid` |
| DriveEmbed.EmbedOtherUrl | src/pages/LessonDetailPage.tsx:123-124 | a URL matching neither pattern is returned unchanged |
| DriveEmbed.FileTakesPrecedence | src/pages/LessonDetailPage.tsx:110-121 | any file match yields a preview URL, whether or not a folder id is present too |
| DriveEmbed.PreviewUrlUnchanged | src/pages/LessonDetailPage.tsx:114 | a preview URL built by the rewrite is rewritten to itself |
| DriveEmbed.FolderViewUrlUnchanged | src/pages/LessonDetailPage.tsx:120 | an embedded-folder URL built by the rewrite is returned unchanged |
| DriveEmbed.EmbedIdempotent | src/pages/LessonDetailPage.tsx:110-125 | rewriting twice gives the same as rewriting once |
| UserData.GetLessonProgress | src/hooks/useUserData.tsx:162-164 | nothing iff no record has the lesson id; otherwise the first record with that id |
| UserData.CompletedLessonsCount | src/hooks/useUserData.tsx:166-168 | at most the number of records; 0 iff none is completed; all iff all are |
| UserData.CompletedLessonsCountAppend | src/hooks/useUserData.tsx:166-168 | the count over two lists one after the other is the sum of the counts |
| UserData.CalculateProgress | src/hooks/useUserData.tsx:170-173 | 0 for no lessons (no division); otherwise 100 * completed / total rounded half up |
| UserData.CalculateProgressBounds | src/hooks/useUserData.tsx:170-173 | in [0, 100] whenever completed <= total |
| UserData.CalculateProgressFull | src/hooks/useUserData.tsx:170-173 | exactly 100 when every lesson is completed |
| UserData.CalculateProgressNone | src/hooks/useUserData.tsx:170-173 | 0 whenever no record is completed, whatever the total |
| UserData.CalculateProgressGrows | src/hooks/useUserData.tsx:170-173 | adding a record never lowers the progress |
| StudyRoadmap.AllDays | src/components/StudyRoadmap25Days.tsx:97-98 | `weeks.flatMap(week => week.days)`: every day of every week is in the list, and every listed day belongs to some week |
| StudyRoadmap.TotalDays | src/components/StudyRoadmap25Days.tsx:98 | `totalDays` is 0 iff there is no week or every week is empty |
| StudyRoadmap.CountCompleted | src/components/StudyRoadmap25Days.tsx:97 | at most the number of days, and 0 iff no day is completed |
| StudyRoadmap.CountCompletedAppend | src/components/StudyRoadmap25Days.tsx:97 | counting over two day lists one after the other adds up |
| StudyRoadmap.CompletedDays | src/components/StudyRoadmap25Days.tsx:97-98 | completed days <= total days, so the "days left" figure (line 151) is never negative |
| StudyRoadmap.ProgressPercentage | src/components/StudyRoadmap25Days.tsx:99 | has no value (JavaScript's NaN) exactly when the plan has no day |
| StudyRoadmap.ProgressPercentageRange | src/components/StudyRoadmap25Days.tsx:99 | for a non-empty plan the percentage lies in [0, 100] |
| StudyRoadmap.WeekCompleted | src/components/StudyRoadmap25Days.tsx:178 | a week's completed count is at most its length |
| StudyRoadmap.WeeksAddUp | src/components/StudyRoadmap25Days.tsx:97-98 | the per-week completed counts and lengths (line 178) sum to completedDays and totalDays |
| StudyRoadmap.GetStatusIcon | src/components/StudyRoadmap25Days.tsx:75-84 | check icon iff "completed", play icon iff "current", the empty circle for every other string |
| StudyRoadmap.GetStatusColor | src/components/StudyRoadmap25Days.tsx:86-95 | green classes iff "completed", blue iff "current", gray for every other string |
| StudyRoadmap.IconAndColorAgree | src/components/StudyRoadmap25Days.tsx:75-95 | the two switches split the statuses identically: green with the check, blue with play, gray with the circle |
| StudyRoadmap.LessonTypeFor | src/components/StudyRoadmap25Days.tsx:212-213 | writing iff the day is divisible by 3 (so day 6 is writing); otherwise listening iff even; otherwise reading |
| StudyRoadmap.DayControls | src/components/StudyRoadmap25Days.tsx:201-226 | at most one control; none iff the status is not completed/current/locked; a completed day gets the completed badge, a current day the "learn now" button for its lesson type, a locked day the disabled "not open" button |
| StudyRoadmap.Week1Figures | src/components/StudyRoadmap25Days.tsx:23-73 | week 1 has 7 days, 3 completed |
| StudyRoadmap.Week2Figures | src/components/StudyRoadmap25Days.tsx:23-73 | week 2 has 7 days, none completed |
| StudyRoadmap.Week3Figures | src/components/StudyRoadmap25Days.tsx:23-73 | week 3 has 7 days, none completed |
| StudyRoadmap.Week4Figures | src/components/StudyRoadmap25Days.tsx:23-73 | week 4 has 4 days, none completed |
| StudyRoadmap.PlanSums | src/components/StudyRoadmap25Days.tsx:23-73 | the week badges of the shipped plan add up to 25 days and 3 completed |
| StudyRoadmap.FiguresOf | src/components/StudyRoadmap25Days.tsx:97-99 | any plan of 25 days with 3 completed shows 25, 3 and 12 % |
| StudyRoadmap.PlanFigures | src/components/StudyRoadmap25Days.tsx:23-99 | the shipped plan shows 3 of 25 days and 12 %, and its current day 4 opens a listening lesson |
| StudyLevels.FirstInProgress | src/components/StudyLevels.tsx:265 | `findIndex` of the first level with 0 < progress < 100, and -1 iff there is none |
| StudyLevels.GetCurrentLevel | src/components/StudyLevels.tsx:94-96 | the first level in progress, or the first level when none is in progress |
| StudyLevels.Badges | src/components/StudyLevels.tsx:175-190 | the completed badge iff progress = 100, the in-progress badge iff 0 < progress < 100, the not-started badge iff progress = 0 |
| StudyLevels.CardTint | src/components/StudyLevels.tsx:162 | green iff progress = 100, blue iff progress is positive and not 100, gray iff progress <= 0 |
| StudyLevels.Actions | src/components/StudyLevels.tsx:244-279 | continue iff the level is in progress, certificate iff progress = 100, "start this level" iff progress = 0 and the card is one past the first in-progress level (`findIndex` + 1) |
| StudyLevels.ExactlyOneBadge | src/components/StudyLevels.tsx:175-190 | for progress in [0, 100] exactly one badge shows: 100 completed, 0 not started, otherwise in progress |
| StudyLevels.NoBadgeOutOfRange | src/components/StudyLevels.tsx:175-190 | outside [0, 100] no badge shows |
| StudyLevels.TintFollowsBadge | src/components/StudyLevels.tsx:162 | on [0, 100] the card colour follows the same three-way split as the badge |
| StudyLevels.ContinueAndCertificate | src/components/StudyLevels.tsx:244-279 | continue iff 0 < progress < 100, certificate iff progress = 100, and at most one progress-dependent button per card |
| StudyLevels.StartLevelPlacement | src/components/StudyLevels.tsx:265 | at most one card offers "start this level": a not-started card right after the first in-progress level, or card 0 when none is in progress |
| StudyLevels.TopicMarkerAt | src/components/StudyLevels.tsx:226-234 | done iff index < completed, current iff index = completed, pending otherwise |
| StudyLevels.StruckThrough | src/components/StudyLevels.tsx:235 | a topic title is struck through exactly when it carries the done marker |
| StudyLevels.TopicMarkers | src/components/StudyLevels.tsx:224-237 | one marker per topic, in topic order |
| StudyLevels.OneCurrentTopic | src/components/StudyLevels.tsx:226-234 | at most one topic is current, and one is iff the completed count points inside the topic list |
| StudyLevels.ShippedLevels | src/components/StudyLevels.tsx:22-96 | in the shipped levels, A1 is current; no card offers "start this level"; B1 is not started and marks its first topic current |
| Dashboard.LoadedDetails | src/pages/DashboardPage.tsx:34-38 | failed detail fetches are dropped: the result is no longer than the course list, holds only loaded details, and keeps every loaded one |
| Dashboard.LoadedDetailsAppend | src/pages/DashboardPage.tsx:38 | filtering keeps the order: filtering a concatenation concatenates the filtered parts |
| Dashboard.LoadedDetailsSingle | src/pages/DashboardPage.tsx:34-38 | a loaded detail is kept, a failed one dropped |
| Dashboard.AllLoaded | src/pages/DashboardPage.tsx:38 | when every fetch succeeded, the details are kept one for one, in order |
| Dashboard.ModuleCount | src/pages/DashboardPage.tsx:52 | a missing module list counts as 0, otherwise its length |
| Dashboard.TotalModules | src/pages/DashboardPage.tsx:51-53 | `getTotalModules`: the total is 0 iff no loaded course has a module |
| Dashboard.TotalModulesAppend | src/pages/DashboardPage.tsx:51-53 | the module total over two detail lists is the sum of the totals |
| Dashboard.TotalModulesBounds | src/pages/DashboardPage.tsx:51-53 | every course's module count is at most the total |
| Dashboard.FindDetail | src/pages/DashboardPage.tsx:141 | nothing iff no detail has the course id; otherwise the first detail with that id |
| Dashboard.DisplayedModuleCount | src/pages/DashboardPage.tsx:141-142 | 0 when no detail matches the course, and never above the total |
| Dashboard.DisplayedModuleCountOfFirst | src/pages/DashboardPage.tsx:141-142 | the count shown is that of the first detail with the course's id |
| Dashboard.ContinueTarget | src/pages/DashboardPage.tsx:228-230 | targets the first course's id iff the course list is non-empty; otherwise nothing happens |
| CoursePage.TotalLessons | src/pages/CourseDetailPage.tsx:62 | `totalLessons`: 0 iff there are no modules or every module is empty |
| CoursePage.TotalLessonsAppend | src/pages/CourseDetailPage.tsx:62 | the lesson total over two module lists is the sum of the totals |
| CoursePage.ModuleWithinTotal | src/pages/CourseDetailPage.tsx:62 | each module's lesson count is at most the total |
| CoursePage.ModuleSection | src/pages/CourseDetailPage.tsx:107-127 | the "no lessons yet" placeholder iff the module has no lesson; otherwise one card per lesson, in order |

## Left out

- Network I/O and other external effects are outside the model:
  - the REST and backend-as-a-service clients (`src/services/api.ts`, `src/services/practiceApi.ts`, the data hooks);
  - the fetch effects of the pages, including the lesson-theory fetch;
  - `fetchUserData`, `updateProfile`, `updateStats` and `markLessonComplete` in `src/hooks/useUserData.tsx`;
  - authentication (`src/contexts/AuthContext.tsx`, local storage).

  The lists these produce (courses, details, progress records, lessons) are inputs to the functions instead. A failed course-detail fetch appears as `None`.
- Purely presentational and static files are not modelled: `src/components/Dashboard.tsx`, `src/components/HeroSection.tsx`, `src/components/Header.tsx`, `src/pages/Index.tsx`, `src/pages/CoursesPage.tsx` and `src/App.tsx`. The type-only files `src/types/api.ts` and `src/types/practice.ts` are not modelled either.
- Floating point is left out:
  - `Math.round` on a double quotient is modelled as exact rounding, half up, of the rational quotient;
  - the quiz progress bar at `src/pages/LessonDetailPage.tsx:204` is not modelled;
  - the roadmap's average-score figure at `src/components/StudyRoadmap25Days.tsx:145`, with its `NaN || 0` fallback, is not modelled.
- React scheduling is not modelled: batched `setState`, asynchronous effects, and the stale `score` closure at `src/pages/LessonDetailPage.tsx:94`. Each handler is one atomic step over the current field values.
- LessonQuiz.SubmitStep and LessonQuiz.NextStep model the handlers on any state. The gating by which button is rendered (check while hidden, next while shown) is a precondition of the class methods. Under that gating the in-order invariant holds.
- There is no completion state, score percentage or persisted result for the quiz, because the page has none. On the last question "next" only shows a toast with score/total and changes no field. The quiz card and its handlers exist only for a non-empty list, which is the constructor's precondition.
- `Exercise.correctOption` is an arbitrary string. A value other than A-D means no option is ever marked correct and no answer scores.
- `CourseDetail.modules` is declared as a required array in `src/types/course.ts:20`, but the dashboard reads it with `?.` and counts a missing list as 0. The model makes it optional. The course page's `totalLessons` assumes the list is present, so `CoursePage` takes the module list itself.
- StudyRoadmap.ProgressPercentage: a plan with no days gives NaN in JavaScript; the model returns no value there instead of a number.
- The roadmap day's score line, the level cards' skills, colours, durations, target scores and the fixed navigation buttons are display text only and are not modelled; levels keep id, name, progress, topics and counts.
- Dashboard.DisplayedModuleCount: its own contract gives only the no-match and bound cases; the first-match value is stated by Dashboard.DisplayedModuleCountOfFirst.
- Video rendering (an embed frame per video using the rewritten URL) and the lesson theory text are display only.
