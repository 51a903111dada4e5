/**
 * The record shapes the course REST payloads are decoded into
 * (src/types/course.ts), plus an Option type for values that may be missing.
 */
module CourseTypes {

  /** A value that may be absent (`undefined` / `null` on the TypeScript side). */
  datatype Option<T> = None | Some(value: T)

  datatype Course = Course(id: int, name: string)

  datatype Lesson = Lesson(id: int, title: string)

  datatype Module = Module(id: int, name: string, lessons: seq<Lesson>)

  /**
   * A course with its modules. The declared type always carries `modules`;
   * the dashboard nevertheless guards against a payload without it, so the
   * field is optional here.
   */
  datatype CourseDetail = CourseDetail(id: int, name: string, modules: Option<seq<Module>>)

  datatype Video = Video(id: int, title: string, filePath: string)

  /** One multiple-choice question; `correctOption` is the key "A".."D" of the right option. */
  datatype Exercise = Exercise(
    id: int,
    question: string,
    optionA: string,
    optionB: string,
    optionC: string,
    optionD: string,
    correctOption: string,
    explanation: string)

  /** A named group of exercises inside a lesson. */
  datatype ExerciseType = ExerciseType(id: int, name: string, exercises: seq<Exercise>)

  datatype LessonDetail = LessonDetail(
    id: int,
    title: string,
    videos: seq<Video>,
    exerciseTypes: seq<ExerciseType>,
    theory: Option<string>)
}
