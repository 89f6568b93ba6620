/**
 * The quiz session: the shared quizState object that startQuiz, the answer
 * handlers, nextQuestion, previousQuestion and finishQuiz update in place.
 * The visibility of the submit button and of the scoreboard, which the
 * handlers read back from the page to decide what to do, are explicit
 * fields. The effect of each handler is first given as a function on a
 * snapshot of the state (the specification the class methods are proved
 * against), and the session invariants are stated about those functions.
 */
module Quiz {
  import opened QuizData
  import App

  const TimeLimitedMode := "time-limited"
  const ImageBasedMode := "image-based"

  /** `questionStates[i]`: submitted at least once, and left behind with "next". */
  datatype QuestionState = QuestionState(answered: bool, locked: bool)

  /** The arguments finishQuiz passes to saveLeaderboardEntry. */
  datatype Submission = Submission(
    name: string,
    correctAnswers: nat,
    mode: string,
    category: string,
    totalQuestions: nat,
    maxStreak: nat,
    timeLimit: Option<string>)

  /** A snapshot of every field of quizState that the handlers read or write. */
  datatype Session = Session(
    quizType: string,
    category: string,
    questions: seq<Question>,
    index: nat,
    selectedAnswer: Option<string>,
    userAnswers: seq<Option<string>>,
    states: seq<QuestionState>,
    score: nat,
    currentStreak: nat,
    maxStreak: nat,
    quizEnded: bool,
    submitVisible: bool,
    scoreboardVisible: bool,
    selectedTimeLimit: string)

  /**
   * The shape of the state: one answer slot and one state per question, the
   * index inside the question list (0 when there is none, and then nothing
   * selected), the three counters equal, since the streak is never reset
   * and always moves together with the score, and the scoreboard shown only
   * once the question list is gone.
   */
  ghost predicate Shaped(s: Session) {
    |s.userAnswers| == |s.questions| && |s.states| == |s.questions| &&
    (if |s.questions| == 0 then s.index == 0 && s.selectedAnswer.None? else s.index < |s.questions|) &&
    s.score == s.currentStreak && s.currentStreak == s.maxStreak &&
    (s.scoreboardVisible ==> s.questions == [])
  }

  /** A locked current question is shown read-only: the submit button is hidden. */
  ghost predicate LockedHidesSubmit(s: Session) {
    s.index < |s.states| && s.states[s.index].locked ==> !s.submitVisible
  }

  /** What holds between handler calls. */
  ghost predicate WellFormed(s: Session) {
    Shaped(s) && LockedHidesSubmit(s)
  }

  /** `resetQuizState`: an empty session with the submit button shown; the time limit is kept. */
  function Reset(s: Session): (r: Session)
    ensures WellFormed(r) && r.questions == [] && r.score == 0
    ensures r.selectedTimeLimit == s.selectedTimeLimit
  {
    s.(quizType := "", category := "", questions := [], index := 0, selectedAnswer := None,
       userAnswers := [], states := [], score := 0, currentStreak := 0, maxStreak := 0,
       quizEnded := false, submitVisible := true, scoreboardVisible := false)
  }

  /** `Math.max` on counters. */
  function Max(a: nat, b: nat): (r: nat)
    ensures r >= a && r >= b && (r == a || r == b)
  {
    if a >= b then a else b
  }

  /** A JavaScript string value is truthy when present and non-empty. */
  predicate Truthy(v: Option<string>) {
    v.Some? && v.value != ""
  }

  // ----- lookups -----

  /**
   * The question list startQuiz reads: `questions[category]` when that key
   * exists, otherwise the legacy map of the mode's data source; None when
   * the category is absent there too.
   */
  function QuestionSource(d: QuizDocument, mode: string, category: string): Option<seq<Question>> {
    if d.questions.Some? && category in d.questions.value.entries then Some(d.questions.value.entries[category])
    else
      match TopLevel(d, DataSourceFor(mode))
      case Some(c) => if category in c.entries then Some(c.entries[category]) else None
      case None => None
  }

  /** `getTotalQuestionsInCategory`: the length of the list a quiz would use, 0 when there is none. */
  function TotalQuestionsInCategory(d: QuizDocument, mode: string, category: string): (n: nat)
    ensures d.questions.Some? && category in d.questions.value.entries ==> n == |d.questions.value.entries[category]|
    ensures !(d.questions.Some? && category in d.questions.value.entries) ==>
      var legacy := TopLevel(d, if mode == "time-limited" then "image-based" else mode);
      (legacy.None? || category !in legacy.value.entries ==> n == 0) &&
      (legacy.Some? && category in legacy.value.entries ==> n == |legacy.value.entries[category]|)
    ensures QuestionSource(d, mode, category).None? ==> n == 0
    ensures QuestionSource(d, mode, category).Some? ==> n == |QuestionSource(d, mode, category).value|
  {
    if d.questions.Some? && category in d.questions.value.entries then
      |d.questions.value.entries[category]|
    else
      var dataSource := if mode == "time-limited" then "image-based" else mode;
      var legacy := TopLevel(d, dataSource);
      if legacy.None? || category !in legacy.value.entries then 0
      else |legacy.value.entries[category]|
  }

  /** `getModeDisplayName`: German names for the two known modes, the key itself otherwise. */
  function ModeDisplayName(mode: string): (r: string)
    ensures mode == TimeLimitedMode ==> r == "Zeitbegrenzt"
    ensures mode == ImageBasedMode ==> r == "Bildbasiert"
    ensures mode != TimeLimitedMode && mode != ImageBasedMode ==> r == mode
  {
    if mode == "time-limited" then "Zeitbegrenzt"
    else if mode == "image-based" then "Bildbasiert"
    else mode
  }

  // ----- the handlers, on snapshots -----

  /** No question is unlocked, unless the whole session was reset. */
  ghost predicate KeepsLocks(s: Session, r: Session) {
    r.states == [] ||
    (|r.states| == |s.states| && forall i :: 0 <= i < |s.states| && s.states[i].locked ==> r.states[i].locked)
  }


  /**
   * `startQuiz`: reset, record mode and category, then either stop (no list
   * or an empty one) or load a shuffled copy of the list with every answer
   * empty and every question open, and show the first question.
   */
  function Start(s: Session, mode: string, category: string, d: QuizDocument, picks: seq<nat>): (r: (Session, bool))
    requires var src := QuestionSource(d, mode, category); src.Some? ==> App.ValidPicks(picks, |src.value|)
    ensures WellFormed(r.0)
    ensures r.0.quizType == mode && r.0.category == category && r.0.selectedTimeLimit == s.selectedTimeLimit
    ensures r.1 <==> TotalQuestionsInCategory(d, mode, category) > 0
    ensures !r.1 ==> r.0.questions == []
    ensures r.1 ==>
      var src := QuestionSource(d, mode, category).value;
      multiset(r.0.questions) == multiset(src) && r.0.index == 0 && r.0.score == 0 &&
      (forall i :: 0 <= i < |r.0.states| ==> r.0.states[i] == QuestionState(false, false)) &&
      (forall i :: 0 <= i < |r.0.userAnswers| ==> r.0.userAnswers[i].None?) &&
      r.0.selectedAnswer.None? && r.0.submitVisible && !r.0.quizEnded && !r.0.scoreboardVisible
  {
    var cleared := Reset(s).(quizType := mode, category := category);
    var src := QuestionSource(d, mode, category);
    if src.None? || |src.value| == 0 then (cleared, false)
    else
      App.ShufflePermutes(src.value, picks);
      var qs := App.Shuffle(src.value, picks);
      var loaded := cleared.(questions := qs,
                             userAnswers := seq(|qs|, _ => None),
                             states := seq(|qs|, _ => QuestionState(false, false)));
      (loaded.(selectedAnswer := loaded.userAnswers[0], submitVisible := !loaded.states[0].locked), true)
  }

  /** `handleAnswerSelection`: record the option unless the question is locked or already submitted. */
  function Select(s: Session, option: string): (r: Session)
    requires WellFormed(s) && s.index < |s.questions|
    ensures WellFormed(r) && r.states == s.states && r.score == s.score && KeepsLocks(s, r)
    ensures !s.states[s.index].locked && s.submitVisible ==>
      r.selectedAnswer == Some(option) && r.userAnswers == s.userAnswers[s.index := Some(option)]
    ensures s.states[s.index].locked || !s.submitVisible ==> r == s
  {
    if !s.states[s.index].locked && s.submitVisible then
      s.(selectedAnswer := Some(option), userAnswers := s.userAnswers[s.index := Some(option)])
    else s
  }

  /** checkAnswer goes past its two early returns. */
  predicate Submits(s: Session, isTimeout: bool) {
    (s.submitVisible || isTimeout) && (isTimeout || Truthy(s.selectedAnswer))
  }

  /**
   * `checkAnswer(isTimeout)`: ignore a second submission and a missing
   * selection; otherwise hide the submit button, mark the question
   * answered, and on a correct answer while the quiz is running add one to
   * the score and the streak.
   */
  function Check(s: Session, isTimeout: bool): (r: Session)
    requires WellFormed(s) && (isTimeout ==> s.index < |s.questions|)
    ensures WellFormed(r) && r.questions == s.questions && r.index == s.index && KeepsLocks(s, r)
    ensures r.userAnswers == s.userAnswers && r.selectedAnswer == s.selectedAnswer
    ensures !Submits(s, isTimeout) ==> r == s
    ensures Submits(s, isTimeout) ==>
      s.index < |s.questions| && !r.submitVisible &&
      r.states == s.states[s.index := s.states[s.index].(answered := true)]
    ensures r.score == s.score || r.score == s.score + 1
    ensures r.score == s.score + 1 <==>
      Submits(s, isTimeout) && !isTimeout && !s.quizEnded &&
      s.selectedAnswer == Some(s.questions[s.index].correctAnswer)
  {
    if !s.submitVisible && !isTimeout then s
    else if !isTimeout && !Truthy(s.selectedAnswer) then s
    else
      var question := s.questions[s.index];
      var isCorrect := !isTimeout && s.selectedAnswer == Some(question.correctAnswer);
      var scored :=
        if isCorrect && !s.quizEnded then
          var streak := s.currentStreak + 1;
          s.(score := s.score + 1, currentStreak := streak,
             maxStreak := Max(s.maxStreak, streak))
        else s;
      scored.(submitVisible := false, states := s.states[s.index := s.states[s.index].(answered := true)])
  }

  /** The entry finishQuiz sends to the leaderboard, if the player has a name. */
  function SubmissionOf(s: Session, playerName: string): Option<Submission> {
    if playerName != "" && playerName != App.Anonymous then
      Some(Submission(playerName, s.score, s.quizType, s.category, |s.questions|, s.maxStreak,
                      if s.quizType == TimeLimitedMode then Some(s.selectedTimeLimit) else None))
    else None
  }

  /**
   * `finishQuiz`: mark the quiz ended and submit the score; then, when the
   * index is still inside the list and the scoreboard is hidden, reset and
   * go back to the category list of the same mode, else show the scoreboard.
   */
  function Finish(s: Session, playerName: string): (r: (Session, Option<Submission>))
    requires Shaped(s)
    ensures WellFormed(r.0) && KeepsLocks(s, r.0) && r.1 == SubmissionOf(s, playerName)
    ensures r.1.Some? <==> playerName != "" && playerName != App.Anonymous
    ensures r.1.Some? ==>
      r.1.value.correctAnswers == s.score && r.1.value.maxStreak == s.score &&
      r.1.value.totalQuestions == |s.questions| &&
      (r.1.value.timeLimit.Some? <==> s.quizType == TimeLimitedMode)
    ensures s.index < |s.questions| && !s.scoreboardVisible ==>
      r.0.questions == [] && r.0.states == [] && !r.0.quizEnded &&
      r.0.quizType == OrElse(Some(s.quizType), ImageBasedMode)
    ensures !(s.index < |s.questions| && !s.scoreboardVisible) ==>
      r.0 == s.(quizEnded := true, scoreboardVisible := true)
  {
    var ended := s.(quizEnded := true);
    var sub := SubmissionOf(s, playerName);
    if s.index < |s.questions| && !s.scoreboardVisible then
      (Reset(ended).(quizType := OrElse(Some(s.quizType), "image-based")), sub)
    else
      (ended.(scoreboardVisible := true), sub)
  }

  /**
   * `loadQuestion`: finish when the quiz has ended or the index has run
   * out; otherwise restore the stored answer and offer the submit button
   * unless the question is locked.
   */
  function Load(s: Session, playerName: string): (r: (Session, Option<Submission>))
    requires Shaped(s)
    ensures WellFormed(r.0) && KeepsLocks(s, r.0)
    ensures s.quizEnded || s.index >= |s.questions| ==> r == Finish(s, playerName)
    ensures !s.quizEnded && s.index < |s.questions| ==>
      r.1.None? && r.0.selectedAnswer == s.userAnswers[s.index] &&
      r.0.submitVisible == !s.states[s.index].locked &&
      r.0 == s.(selectedAnswer := r.0.selectedAnswer, submitVisible := r.0.submitVisible)
  {
    if s.quizEnded || s.index >= |s.questions| then Finish(s, playerName)
    else (s.(selectedAnswer := s.userAnswers[s.index], submitVisible := !s.states[s.index].locked), None)
  }

  /** The current question of `s`, locked if it exists. */
  function LockCurrent(s: Session): (r: Session)
    requires Shaped(s)
    ensures Shaped(r)
  {
    if s.index < |s.states| then s.(states := s.states[s.index := s.states[s.index].(locked := true)]) else s
  }

  /** `nextQuestion`: lock the current question, then advance and load, or finish at the last one. */
  function Next(s: Session, playerName: string): (r: (Session, Option<Submission>))
    requires WellFormed(s)
    ensures WellFormed(r.0) && KeepsLocks(s, r.0)
    ensures r.0.states != [] ==> r.0.states[s.index].locked
    ensures s.index + 1 < |s.questions| && !s.quizEnded ==> r.1.None? && r.0.index == s.index + 1
  {
    var locked := LockCurrent(s);
    if s.index + 1 < |s.questions| then
      Load(locked.(index := s.index + 1, selectedAnswer := None, submitVisible := true), playerName)
    else Finish(locked, playerName)
  }

  /** `previousQuestion`: step back and load, restoring the stored answer; nothing at the first question. */
  function Previous(s: Session, playerName: string): (r: (Session, Option<Submission>))
    requires WellFormed(s)
    ensures WellFormed(r.0) && KeepsLocks(s, r.0)
    ensures s.index > 0 && !s.quizEnded ==>
      r.1.None? && r.0.index == s.index - 1 && r.0.states == s.states &&
      r.0.selectedAnswer == s.userAnswers[s.index - 1] && r.0.submitVisible == !s.states[s.index - 1].locked
    ensures s.index == 0 ==> r == (s, None)
  {
    if s.index > 0 then
      Load(s.(index := s.index - 1, selectedAnswer := s.userAnswers[s.index - 1], submitVisible := true), playerName)
    else (s, None)
  }

  // ----- properties of the handlers -----

  /**
   * A question left behind with "next" is frozen: selecting changes nothing,
   * submitting it again changes nothing, and not even a timeout touches the
   * score, the streaks or the stored answers.
   */
  lemma LockedQuestionIsFrozen(s: Session, option: string, isTimeout: bool)
    requires WellFormed(s) && s.index < |s.questions| && s.states[s.index].locked
    ensures Select(s, option) == s
    ensures !isTimeout ==> Check(s, isTimeout) == s
    ensures var r := Check(s, isTimeout);
      r.score == s.score && r.currentStreak == s.currentStreak && r.maxStreak == s.maxStreak &&
      r.userAnswers == s.userAnswers
  {
    assert !s.submitVisible;
  }

  /**
   * Submitting, stepping back and stepping forward again reopens an
   * answered question that was never locked, with its answer restored, so
   * the same question can be scored twice: two questions, three points.
   */
  lemma ScoreCanExceedQuestionCount()
    ensures
      var q := Question(["A", "B"], "A", None, None, None, None);
      var d := QuizDocument(Some(OrderedMap(["c"], map["c" := [q, q]])), None, None);
      var s0 := Session("", "", [], 0, None, [], [], 0, 0, 0, false, true, false, "1");
      var s1 := Start(s0, ImageBasedMode, "c", d, [0, 1]);
      var s2 := Check(Select(s1.0, "A"), false);
      var s3 := Next(s2, "Anna").0;
      var s4 := Check(Select(s3, "A"), false);
      var s5 := Previous(s4, "Anna").0;
      var s6 := Next(s5, "Anna").0;
      var s7 := Check(s6, false);
      s1.1 && |s7.questions| == 2 && s7.score == 3
  {
    var q := Question(["A", "B"], "A", None, None, None, None);
    var d := QuizDocument(Some(OrderedMap(["c"], map["c" := [q, q]])), None, None);
    var s0 := Session("", "", [], 0, None, [], [], 0, 0, 0, false, true, false, "1");
    App.ShuffleDownIdentity([q, q], [0, 1], 1);
    var s1 := Start(s0, ImageBasedMode, "c", d, [0, 1]);
    assert s1.0.questions == [q, q];
    var s2 := Check(Select(s1.0, "A"), false);
    assert s2.score == 1;
    var s3 := Next(s2, "Anna").0;
    assert s3.index == 1 && s3.submitVisible;
    var s4 := Check(Select(s3, "A"), false);
    assert s4.score == 2;
    var s5 := Previous(s4, "Anna").0;
    assert s5.index == 0;
    var s6 := Next(s5, "Anna").0;
    assert s6.index == 1 && s6.submitVisible && s6.selectedAnswer == Some("A");
  }

  // ----- the shared state object -----

  /** quizState. */
  class QuizState {
    var quizType: string
    var category: string
    var questions: seq<Question>
    var index: nat
    var selectedAnswer: Option<string>
    var userAnswers: seq<Option<string>>
    var states: seq<QuestionState>
    var score: nat
    var currentStreak: nat
    var maxStreak: nat
    var quizEnded: bool
    var submitVisible: bool
    var scoreboardVisible: bool
    var selectedTimeLimit: string

    function Snapshot(): Session
      reads this
    {
      Session(quizType, category, questions, index, selectedAnswer, userAnswers, states,
              score, currentStreak, maxStreak, quizEnded, submitVisible, scoreboardVisible, selectedTimeLimit)
    }

    ghost predicate Valid()
      reads this
    {
      WellFormed(Snapshot())
    }

    /** The shape alone, as it is in the middle of nextQuestion and previousQuestion. */
    ghost predicate Consistent()
      reads this
    {
      Shaped(Snapshot())
    }

    /** The initial quizState: no quiz, a time limit of 1 second. */
    constructor ()
      ensures Valid() && Snapshot() == Session("", "", [], 0, None, [], [], 0, 0, 0, false, true, false, "1")
    {
      quizType, category, questions, index := "", "", [], 0;
      selectedAnswer, userAnswers, states := None, [], [];
      score, currentStreak, maxStreak := 0, 0, 0;
      quizEnded, submitVisible, scoreboardVisible := false, true, false;
      selectedTimeLimit := "1";
    }

    method ResetQuizState()
      modifies this
      ensures Valid() && Snapshot() == Reset(old(Snapshot()))
    {
      ClearRun();
      ClearCounters();
    }

    /** The question-run half of resetQuizState. */
    method ClearRun()
      modifies this
      ensures quizType == "" && category == "" && questions == [] && index == 0
      ensures selectedAnswer == None && userAnswers == [] && states == []
      ensures score == old(score) && currentStreak == old(currentStreak) && maxStreak == old(maxStreak)
      ensures quizEnded == old(quizEnded) && submitVisible == old(submitVisible)
      ensures scoreboardVisible == old(scoreboardVisible) && selectedTimeLimit == old(selectedTimeLimit)
    {
      quizType, category, questions, index := "", "", [], 0;
      selectedAnswer, userAnswers, states := None, [], [];
    }

    /** The counter and button half of resetQuizState. */
    method ClearCounters()
      modifies this
      ensures score == 0 && currentStreak == 0 && maxStreak == 0
      ensures !quizEnded && submitVisible && !scoreboardVisible
      ensures quizType == old(quizType) && category == old(category) && questions == old(questions)
      ensures index == old(index) && selectedAnswer == old(selectedAnswer) && userAnswers == old(userAnswers)
      ensures states == old(states) && selectedTimeLimit == old(selectedTimeLimit)
    {
      score, currentStreak, maxStreak := 0, 0, 0;
      quizEnded, submitVisible, scoreboardVisible := false, true, false;
    }

    method StartQuiz(mode: string, cat: string, d: QuizDocument, picks: seq<nat>) returns (started: bool)
      requires var src := QuestionSource(d, mode, cat); src.Some? ==> App.ValidPicks(picks, |src.value|)
      modifies this
      ensures Valid()
      ensures (Snapshot(), started) == Start(old(Snapshot()), mode, cat, d, picks)
    {
      ResetQuizState();
      quizType, category := mode, cat;
      var src := QuestionSource(d, mode, cat);
      if src.None? || |src.value| == 0 {
        return false;
      }
      var list := src.value;
      var copy := new Question[|list|](i requires 0 <= i < |list| => list[i]);
      assert copy[..] == list;
      App.ShuffleArray(copy, picks);
      App.ShufflePermutes(list, picks);
      BeginRun(copy[..]);
      started := true;
    }

    /** The shuffled list with empty answers and open questions, then loadQuestion on the first. */
    method BeginRun(qs: seq<Question>)
      requires |qs| > 0
      modifies this
      ensures questions == qs && userAnswers == seq(|qs|, _ => None)
      ensures states == seq(|qs|, _ => QuestionState(false, false))
      ensures selectedAnswer == None && submitVisible
      ensures quizType == old(quizType) && category == old(category) && index == old(index)
      ensures score == old(score) && currentStreak == old(currentStreak) && maxStreak == old(maxStreak)
      ensures quizEnded == old(quizEnded) && scoreboardVisible == old(scoreboardVisible)
      ensures selectedTimeLimit == old(selectedTimeLimit)
    {
      questions := qs;
      userAnswers := seq(|qs|, _ => None);
      states := seq(|qs|, _ => QuestionState(false, false));
      selectedAnswer := userAnswers[0];
      submitVisible := !states[0].locked;
    }

    method HandleAnswerSelection(option: string)
      requires Valid() && index < |questions|
      modifies this
      ensures Valid() && Snapshot() == Select(old(Snapshot()), option)
    {
      if !states[index].locked && submitVisible {
        selectedAnswer := Some(option);
        userAnswers := userAnswers[index := Some(option)];
      }
    }

    method CheckAnswer(isTimeout: bool)
      requires Valid() && (isTimeout ==> index < |questions|)
      modifies this
      ensures Valid() && Snapshot() == Check(old(Snapshot()), isTimeout)
    {
      if !submitVisible && !isTimeout {
        return;
      }
      if !isTimeout && !Truthy(selectedAnswer) {
        return;
      }
      submitVisible := false;
      var isCorrect := !isTimeout && selectedAnswer == Some(questions[index].correctAnswer);
      if isCorrect && !quizEnded {
        AddPoint();
      }
      states := states[index := states[index].(answered := true)];
    }

    /** The score and the streak go up by one, and the best streak follows. */
    method AddPoint()
      modifies this
      ensures Snapshot() == old(Snapshot()).(score := old(score) + 1, currentStreak := old(currentStreak) + 1,
                                             maxStreak := Max(old(maxStreak), old(currentStreak) + 1))
    {
      score := score + 1;
      currentStreak := currentStreak + 1;
      maxStreak := Max(maxStreak, currentStreak);
    }

    method FinishQuiz(playerName: string) returns (sub: Option<Submission>)
      requires Consistent()
      modifies this
      ensures Valid()
      ensures (Snapshot(), sub) == Finish(old(Snapshot()), playerName)
    {
      sub := SubmissionOf(Snapshot(), playerName);
      quizEnded := true;
      var wasMidQuiz := index < |questions|;
      var currentType := quizType;
      if wasMidQuiz && !scoreboardVisible {
        ResetQuizState();
        quizType := OrElse(Some(currentType), "image-based");
      } else {
        scoreboardVisible := true;
      }
    }

    method LoadQuestion(playerName: string) returns (sub: Option<Submission>)
      requires Consistent()
      modifies this
      ensures Valid()
      ensures (Snapshot(), sub) == Load(old(Snapshot()), playerName)
    {
      if quizEnded || index >= |questions| {
        sub := FinishQuiz(playerName);
        return;
      }
      selectedAnswer := userAnswers[index];
      submitVisible := !states[index].locked;
      sub := None;
    }

    method NextQuestion(playerName: string) returns (sub: Option<Submission>)
      requires Valid()
      modifies this
      ensures Valid()
      ensures (Snapshot(), sub) == Next(old(Snapshot()), playerName)
    {
      if index < |states| {
        states := states[index := states[index].(locked := true)];
      }
      assert Snapshot() == LockCurrent(old(Snapshot()));
      if index + 1 < |questions| {
        MoveTo(index + 1, None);
        sub := LoadQuestion(playerName);
      } else {
        sub := FinishQuiz(playerName);
      }
    }

    /** Go to question `i` with `selected` as the current choice and the submit button shown. */
    method MoveTo(i: nat, selected: Option<string>)
      requires Consistent() && i < |questions|
      modifies this
      ensures Consistent() && Snapshot() == old(Snapshot()).(index := i, selectedAnswer := selected, submitVisible := true)
    {
      index, selectedAnswer, submitVisible := i, selected, true;
    }

    method PreviousQuestion(playerName: string) returns (sub: Option<Submission>)
      requires Valid()
      modifies this
      ensures Valid()
      ensures (Snapshot(), sub) == Previous(old(Snapshot()), playerName)
    {
      if index > 0 {
        MoveTo(index - 1, userAnswers[index - 1]);
        sub := LoadQuestion(playerName);
      } else {
        sub := None;
      }
    }
  }
}
