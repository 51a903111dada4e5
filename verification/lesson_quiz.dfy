/**
 * The exercise quiz of a lesson page (src/pages/LessonDetailPage.tsx):
 * the exercise list flattened from the lesson's exercise groups, the quiz
 * session state, its three transitions (choose an option, check the answer,
 * go to the next question) as pure step functions, and a class holding the
 * session fields whose methods are proved to perform those steps.
 */
module LessonQuiz {
  import opened CourseTypes

  // ---------------------------------------------------------------------
  // The flattened exercise list
  // ---------------------------------------------------------------------

  /** `exerciseTypes.flatMap(type => type.exercises)`. */
  function AllExercises(groups: seq<ExerciseType>): (r: seq<Exercise>)
    ensures forall i, j :: 0 <= i < |groups| && 0 <= j < |groups[i].exercises| ==> groups[i].exercises[j] in r
    ensures forall e :: e in r ==> exists i :: 0 <= i < |groups| && e in groups[i].exercises
  {
    if groups == [] then []
    else
      var rest := AllExercises(groups[1..]);
      assert forall i :: 0 < i < |groups| ==> groups[i] == groups[1..][i - 1];
      groups[0].exercises + rest
  }

  /** The number of exercises summed over the groups. */
  function GroupSizes(groups: seq<ExerciseType>): nat
  {
    if groups == [] then 0 else |groups[0].exercises| + GroupSizes(groups[1..])
  }

  lemma {:induction false} AllExercisesLength(groups: seq<ExerciseType>)
    ensures |AllExercises(groups)| == GroupSizes(groups)
  {
    if groups != [] {
      AllExercisesLength(groups[1..]);
    }
  }

  /** Flattening two runs of groups one after the other concatenates their exercises. */
  lemma {:induction false} AllExercisesAppend(a: seq<ExerciseType>, b: seq<ExerciseType>)
    ensures AllExercises(a + b) == AllExercises(a) + AllExercises(b)
  {
    if a == [] {
      assert a + b == b;
    } else {
      assert (a + b)[1..] == a[1..] + b;
      AllExercisesAppend(a[1..], b);
    }
  }

  /**
   * Exercise j of group i sits in the flattened list right after all the
   * exercises of the groups before group i: group order first, then the
   * order inside the group.
   */
  lemma AllExercisesAt(groups: seq<ExerciseType>, i: nat, j: nat)
    requires i < |groups| && j < |groups[i].exercises|
    ensures GroupSizes(groups[..i]) + j < |AllExercises(groups)|
    ensures AllExercises(groups)[GroupSizes(groups[..i]) + j] == groups[i].exercises[j]
  {
    assert groups == groups[..i] + ([groups[i]] + groups[i + 1..]);
    AllExercisesAppend(groups[..i], [groups[i]] + groups[i + 1..]);
    AllExercisesAppend([groups[i]], groups[i + 1..]);
    assert AllExercises([groups[i]]) == groups[i].exercises by {
      assert [groups[i]][1..] == [];
    }
    AllExercisesLength(groups[..i]);
  }

  // ---------------------------------------------------------------------
  // Session state and its transitions
  // ---------------------------------------------------------------------

  /** The keys of the four radio options; the only values a selection can take. */
  const Options: set<string> := {"A", "B", "C", "D"}

  /** The notification a handler raises. */
  datatype Toast =
    | Silent
      /** Error toast: check pressed with nothing selected. */
    | ChooseAnAnswer
      /** Success toast on the last question: "score/total". */
    | Finished(score: nat, total: nat)

  /**
   * The five state fields of the page: `currentQuestionIndex`,
   * `selectedAnswer` ("" when nothing is chosen), `showExplanation`,
   * `score` and `answeredQuestions`.
   */
  datatype QuizState = QuizState(
    index: nat,
    selected: string,
    revealed: bool,
    score: nat,
    answered: set<nat>)

  /** The initial values of the five fields. */
  const Start: QuizState := QuizState(0, "", false, 0, {})

  /** A transition: the new state and the toast it raised. */
  datatype Step = Step(state: QuizState, toast: Toast)

  /** Choosing a radio option; the radio items are disabled while the explanation shows. */
  function SelectStep(s: QuizState, option: string): (r: QuizState)
    ensures s.revealed ==> r == s
    ensures !s.revealed ==> r.selected == option
    ensures r.(selected := s.selected) == s
  {
    if s.revealed then s else s.(selected := option)
  }

  /** `handleSubmitAnswer`, checking the current selection against the current exercise. */
  function SubmitStep(s: QuizState, exercises: seq<Exercise>): (r: Step)
    requires s.index < |exercises|
    // With nothing selected only the error toast is raised.
    ensures r.toast == ChooseAnAnswer <==> s.selected == ""
    ensures s.selected == "" ==> r.state == s
    ensures s.selected != "" ==> r.toast == Silent
    // Otherwise the explanation is shown and the index is recorded as answered.
    ensures s.selected != "" ==>
      && r.state.revealed
      && r.state.index == s.index
      && r.state.selected == s.selected
      && r.state.answered == s.answered + {s.index}
    // The score grows by one exactly for a first, case-sensitively equal answer.
    ensures r.state.score == s.score || r.state.score == s.score + 1
    ensures r.state.score == s.score + 1 <==>
      s.selected != "" && s.index !in s.answered && s.selected == exercises[s.index].correctOption
  {
    if s.selected == "" then
      Step(s, ChooseAnAnswer)
    else if s.index in s.answered then
      Step(s.(revealed := true), Silent)
    else
      var gained := if s.selected == exercises[s.index].correctOption then 1 else 0;
      Step(s.(revealed := true, score := s.score + gained, answered := s.answered + {s.index}), Silent)
  }

  /** `handleNextQuestion` on a list of `total` exercises. */
  function NextStep(s: QuizState, total: nat): (r: Step)
    requires s.index < total
    ensures r.state.index < total
    // Before the last question: advance by one, clear the selection and the explanation.
    ensures s.index < total - 1 ==>
      r == Step(QuizState(s.index + 1, "", false, s.score, s.answered), Silent)
    // On the last question: nothing changes, the final score is announced.
    ensures s.index == total - 1 ==> r == Step(s, Finished(s.score, total))
  {
    if s.index < total - 1 then
      Step(s.(index := s.index + 1, selected := "", revealed := false), Silent)
    else
      Step(s, Finished(s.score, total))
  }

  /** Checking the answer a second time at the same index changes nothing further. */
  lemma SubmitIdempotent(s: QuizState, exercises: seq<Exercise>)
    requires s.index < |exercises|
    ensures SubmitStep(SubmitStep(s, exercises).state, exercises).state == SubmitStep(s, exercises).state
  {
  }

  /** How an answer option is highlighted. */
  datatype OptionMark = Plain | MarkedCorrect | MarkedWrong

  /**
   * The highlight of `option` on the current exercise: once the explanation
   * shows, the correct option is marked correct and a different selected
   * option is marked wrong; before that nothing is marked.
   */
  function MarkOf(s: QuizState, exercise: Exercise, option: string): (r: OptionMark)
    ensures !s.revealed ==> r == Plain
    ensures r == MarkedCorrect <==> s.revealed && option == exercise.correctOption
    ensures r == MarkedWrong <==> s.revealed && option == s.selected && option != exercise.correctOption
  {
    if s.revealed && option == exercise.correctOption then MarkedCorrect
    else if s.revealed && option == s.selected then MarkedWrong
    else Plain
  }

  /**
   * After checking a selected option, some option is marked wrong exactly
   * when the selection missed, and then it is the selected one; the marked
   * correct option is the exercise's correct option whenever that is one of
   * the four keys.
   */
  lemma MarksAfterSubmit(s: QuizState, exercises: seq<Exercise>)
    requires s.index < |exercises| && s.selected in Options
    ensures var t := SubmitStep(s, exercises).state;
      && (forall o :: o in Options && MarkOf(t, exercises[s.index], o) == MarkedWrong ==> o == s.selected)
      && ((exists o :: o in Options && MarkOf(t, exercises[s.index], o) == MarkedWrong)
          <==> s.selected != exercises[s.index].correctOption)
      && (exercises[s.index].correctOption in Options ==>
          exists o :: o in Options && MarkOf(t, exercises[s.index], o) == MarkedCorrect)
  {
    var t := SubmitStep(s, exercises).state;
    var ex := exercises[s.index];
    if s.selected != ex.correctOption {
      assert MarkOf(t, ex, s.selected) == MarkedWrong;
    }
    if ex.correctOption in Options {
      assert MarkOf(t, ex, ex.correctOption) == MarkedCorrect;
    }
  }

  // ---------------------------------------------------------------------
  // Invariants
  // ---------------------------------------------------------------------

  /**
   * What holds however the three handlers are invoked: the index stays in
   * range, answered indices are at most the current one, a shown explanation
   * means the current index was answered, and the score never exceeds the
   * number of answered questions.
   */
  ghost predicate Consistent(s: QuizState, total: nat)
  {
    && s.index < total
    && (forall i :: i in s.answered ==> i <= s.index)
    && (s.revealed ==> s.index in s.answered)
    && s.score <= |s.answered|
    && (s.selected == "" || s.selected in Options)
  }

  lemma StartConsistent(total: nat)
    requires total > 0
    ensures Consistent(Start, total)
  {
  }

  lemma SelectKeepsConsistent(s: QuizState, total: nat, option: string)
    requires Consistent(s, total) && option in Options
    ensures Consistent(SelectStep(s, option), total)
  {
  }

  lemma SubmitKeepsConsistent(s: QuizState, exercises: seq<Exercise>)
    requires Consistent(s, |exercises|)
    ensures Consistent(SubmitStep(s, exercises).state, |exercises|)
  {
  }

  lemma NextKeepsConsistent(s: QuizState, total: nat)
    requires Consistent(s, total)
    ensures Consistent(NextStep(s, total).state, total)
  {
  }

  /** A set of naturals all below n has at most n elements. */
  lemma {:induction false} BoundedSetSize(a: set<nat>, n: nat)
    requires forall i :: i in a ==> i < n
    ensures |a| <= n
  {
    if n == 0 {
      assert a == {};
    } else {
      BoundedSetSize(a - {n - 1}, n - 1);
    }
  }

  /** score <= |answeredQuestions| <= number of exercises, and every answered index is in range. */
  lemma ConsistentBounds(s: QuizState, total: nat)
    requires Consistent(s, total)
    ensures s.score <= |s.answered| <= s.index + 1 <= total
    ensures forall i :: i in s.answered ==> i < total
  {
    BoundedSetSize(s.answered, s.index + 1);
  }

  /** The indices 0 .. n-1. */
  function Range(n: nat): (r: set<nat>)
    ensures forall i: nat :: i in r <==> i < n
  {
    if n == 0 then {} else Range(n - 1) + {n - 1}
  }

  lemma {:induction false} RangeSize(n: nat)
    ensures |Range(n)| == n
    decreases n
  {
    if n > 0 {
      RangeSize(n - 1);
    }
  }

  /**
   * Under the page's wiring (check only while the explanation is hidden,
   * next only while it shows), the questions are answered strictly in order:
   * the answered set is every earlier index, plus the current one once its
   * explanation shows.
   */
  ghost predicate InOrder(s: QuizState)
  {
    s.answered == Range(s.index + if s.revealed then 1 else 0)
  }

  lemma SubmitKeepsInOrder(s: QuizState, exercises: seq<Exercise>)
    requires Consistent(s, |exercises|) && InOrder(s) && !s.revealed
    ensures InOrder(SubmitStep(s, exercises).state)
  {
    if s.selected != "" {
      assert Range(s.index) + {s.index} == Range(s.index + 1);
    }
  }

  lemma NextKeepsInOrder(s: QuizState, total: nat)
    requires Consistent(s, total) && InOrder(s) && s.revealed
    ensures InOrder(NextStep(s, total).state)
  {
  }

  /** Under that wiring the number of answered questions is exactly the progress through the list. */
  lemma InOrderCount(s: QuizState)
    requires InOrder(s)
    ensures |s.answered| == s.index + if s.revealed then 1 else 0
  {
    RangeSize(s.index + if s.revealed then 1 else 0);
  }

  // ---------------------------------------------------------------------
  // A full pass through the quiz
  // ---------------------------------------------------------------------

  /** Choose `option`, check it, then press next. */
  function Answer(s: QuizState, exercises: seq<Exercise>, option: string): (r: QuizState)
    requires s.index < |exercises|
    ensures r.index < |exercises|
  {
    NextStep(SubmitStep(SelectStep(s, option), exercises).state, |exercises|).state
  }

  /** Answer the remaining questions with `answers`, one after the other. */
  function Play(s: QuizState, exercises: seq<Exercise>, answers: seq<string>): (r: QuizState)
    requires s.index < |exercises|
    decreases |answers|
  {
    if answers == [] then s else Play(Answer(s, exercises, answers[0]), exercises, answers[1..])
  }

  /** How many answers equal the correct option at the same position. */
  function Matches(exercises: seq<Exercise>, answers: seq<string>): (r: nat)
    requires |exercises| == |answers|
    ensures r <= |answers|
  {
    if answers == [] then 0
    else (if answers[0] == exercises[0].correctOption then 1 else 0) + Matches(exercises[1..], answers[1..])
  }

  lemma {:induction false} PlayScore(s: QuizState, exercises: seq<Exercise>, answers: seq<string>)
    requires s.index < |exercises| && s.index + |answers| == |exercises|
    requires !s.revealed && s.answered == Range(s.index)
    requires forall k :: 0 <= k < |answers| ==> answers[k] in Options
    ensures Play(s, exercises, answers).score == s.score + Matches(exercises[s.index..], answers)
    decreases |answers|
  {
    var n := |exercises|;
    var ex := exercises[s.index..];
    assert ex[1..] == exercises[s.index + 1..];
    var gained := if answers[0] == ex[0].correctOption then 1 else 0;
    var t := Answer(s, exercises, answers[0]);
    assert t.score == s.score + gained;
    if s.index < n - 1 {
      assert Range(s.index) + {s.index} == Range(s.index + 1);
      assert t.index == s.index + 1 && !t.revealed && t.answered == Range(t.index);
      PlayScore(t, exercises, answers[1..]);
    } else {
      assert answers[1..] == [];
    }
  }

  /**
   * Answering every question once, in order, from a fresh session scores
   * exactly the number of answers equal to the correct option.
   */
  lemma QuizScore(exercises: seq<Exercise>, answers: seq<string>)
    requires |exercises| == |answers| > 0
    requires forall k :: 0 <= k < |answers| ==> answers[k] in Options
    ensures Play(Start, exercises, answers).score == Matches(exercises, answers) <= |exercises|
  {
    assert Start.answered == Range(0);
    PlayScore(Start, exercises, answers);
    assert exercises[0..] == exercises;
  }

  // ---------------------------------------------------------------------
  // The session as the page holds it
  // ---------------------------------------------------------------------

  /**
   * The quiz card of one lesson page. The card (and with it every handler)
   * is rendered only when the flattened exercise list is non-empty.
   */
  class QuizSession {
    const exercises: seq<Exercise>
    var currentQuestionIndex: nat
    var selectedAnswer: string
    var showExplanation: bool
    var score: nat
    var answeredQuestions: set<nat>

    function State(): QuizState
      reads this
    {
      QuizState(currentQuestionIndex, selectedAnswer, showExplanation, score, answeredQuestions)
    }

    ghost predicate Valid()
      reads this
    {
      Consistent(State(), |exercises|) && InOrder(State())
    }

    constructor (lesson: LessonDetail)
      requires AllExercises(lesson.exerciseTypes) != []
      ensures exercises == AllExercises(lesson.exerciseTypes)
      ensures State() == Start
      ensures Valid()
    {
      exercises := AllExercises(lesson.exerciseTypes);
      currentQuestionIndex := 0;
      selectedAnswer := "";
      showExplanation := false;
      score := 0;
      answeredQuestions := {};
      new;
      assert Range(0) == {};
    }

    /** `onValueChange` of the radio group. */
    method SelectAnswer(option: string)
      requires Valid() && option in Options
      modifies this
      ensures Valid()
      ensures State() == SelectStep(old(State()), option)
    {
      if !showExplanation {
        selectedAnswer := option;
      }
    }

    /** `handleSubmitAnswer`; its button is shown only while the explanation is hidden. */
    method SubmitAnswer() returns (toast: Toast)
      requires Valid() && !showExplanation
      modifies this
      ensures Valid()
      ensures Step(State(), toast) == SubmitStep(old(State()), exercises)
      ensures score <= |answeredQuestions| <= |exercises|
    {
      ghost var before := State();
      if selectedAnswer == "" {
        toast := ChooseAnAnswer;
      } else {
        showExplanation := true;
        if currentQuestionIndex !in answeredQuestions {
          if selectedAnswer == exercises[currentQuestionIndex].correctOption {
            score := score + 1;
          }
          answeredQuestions := answeredQuestions + {currentQuestionIndex};
        }
        toast := Silent;
      }
      SubmitKeepsConsistent(before, exercises);
      SubmitKeepsInOrder(before, exercises);
      ConsistentBounds(State(), |exercises|);
    }

    /** `handleNextQuestion`; its button is shown only while the explanation shows. */
    method NextQuestion() returns (toast: Toast)
      requires Valid() && showExplanation
      modifies this
      ensures Valid()
      ensures Step(State(), toast) == NextStep(old(State()), |exercises|)
      ensures score <= |answeredQuestions| <= |exercises|
    {
      ghost var before := State();
      if currentQuestionIndex < |exercises| - 1 {
        currentQuestionIndex := currentQuestionIndex + 1;
        selectedAnswer := "";
        showExplanation := false;
        toast := Silent;
      } else {
        toast := Finished(score, |exercises|);
      }
      NextKeepsInOrder(before, |exercises|);
      ConsistentBounds(State(), |exercises|);
    }
  }
}
