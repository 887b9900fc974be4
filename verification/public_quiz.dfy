/** The quiz-taking screen (src/pages/PublicQuiz.jsx): one attempt at a
    published quiz, with answer capture, navigation, a countdown and submission. */
module PublicQuiz {
  import opened QuizModel
  import opened Scoring
  import opened Decimal

  /** What the timer effect does after a render: arm a one-second tick, submit
      because time is up, or nothing. */
  datatype TimerStep = ScheduleTick | AutoSubmit | Idle

  /** The timer effect's decision as the screen makes it: it looks only at the
      time left, whether a quiz is loaded and whether the attempt is over. */
  function TimerStepAsWritten(timeLeft: int, loaded: bool, completed: bool): (step: TimerStep)
    ensures step == ScheduleTick <==> timeLeft > 0 && loaded && !completed
    ensures step == AutoSubmit <==> timeLeft == 0 && loaded && !completed
    ensures completed || !loaded ==> step == Idle
  {
    if timeLeft > 0 && loaded && !completed then ScheduleTick
    else if timeLeft == 0 && loaded && !completed then AutoSubmit
    else Idle
  }

  /** A quiz saved with time limit 0 ("no limit") starts with 0 seconds left, so
      the first effect run after loading submits it at once, with no answer
      recorded and therefore a score of 0. */
  lemma ZeroLimitSubmitsOnLoad(q: Quiz)
    requires q.status == Published && q.timeLimit == 0
    ensures TimerStepAsWritten(q.timeLimit * 60, true, false) == AutoSubmit
    ensures CountCorrect(q.questions, map[]) == 0
  {
    UnansweredScoresZero(q.questions, map[]);
  }

  /** A negative time limit (the authoring screen does not clamp it) starts the
      countdown below zero: no tick is ever armed and the attempt is never
      submitted by the timer. */
  lemma NegativeLimitNeverTimesOut(timeLimit: int, completed: bool)
    requires timeLimit < 0
    ensures TimerStepAsWritten(timeLimit * 60, true, completed) == Idle
  {
  }

  /** The timer decision with the "0 means no limit" convention honoured: a quiz
      without a positive time limit never ticks and is never auto-submitted. */
  function TimerStepIntended(timeLimit: int, timeLeft: int, loaded: bool, completed: bool): (step: TimerStep)
    ensures timeLimit <= 0 ==> step == Idle
  {
    if timeLimit > 0 then TimerStepAsWritten(timeLeft, loaded, completed) else Idle
  }

  /** For a quiz with a positive limit the intended decision is the written one
      at every time left. A negative limit starts the countdown below zero,
      where both are idle. Limit 0 is where they part: on a loaded, open
      attempt the written effect submits at once while the intended one
      waits for the user. */
  lemma TimerStepIntendedAgrees(timeLimit: int, timeLeft: int, loaded: bool, completed: bool)
    ensures timeLimit > 0 ==> TimerStepIntended(timeLimit, timeLeft, loaded, completed)
                              == TimerStepAsWritten(timeLeft, loaded, completed)
    ensures timeLimit < 0 ==> TimerStepIntended(timeLimit, timeLimit * 60, loaded, completed)
                              == TimerStepAsWritten(timeLimit * 60, loaded, completed) == Idle
    ensures timeLimit == 0 && loaded && !completed
            ==> TimerStepAsWritten(timeLimit * 60, loaded, completed) == AutoSubmit
                && TimerStepIntended(timeLimit, timeLimit * 60, loaded, completed) == Idle
  {
  }

  /** `formatTime`: whole minutes and remaining seconds, each zero-padded to
      two digits, around a colon. */
  function FormatTime(seconds: nat): (r: string)
    ensures |r| >= 5 && r[|r| - 3] == ':'
  {
    var m := TwoDigits(seconds / 60);
    var s := TwoDigits(seconds % 60);
    ColonAt(m, s);
    m + ":" + s
  }

  lemma ColonAt(m: string, s: string)
    requires |s| == 2
    ensures var r := m + ":" + s;
      |r| == |m| + 3 && r[|r| - 3] == ':' && r[..|r| - 3] == m && r[|r| - 2..] == s
  {
  }

  /** Reading the clock back: the part before the colon is the number of whole
      minutes, the two digits after it the remaining seconds (below 60), and
      together they give the seconds that were formatted. */
  lemma FormatTimeRoundTrip(seconds: nat)
    ensures var r := FormatTime(seconds);
      && AllDigits(r[..|r| - 3]) && AllDigits(r[|r| - 2..])
      && ValueOf(r[|r| - 2..]) < 60
      && ValueOf(r[..|r| - 3]) * 60 + ValueOf(r[|r| - 2..]) == seconds
      && (|r| > 5 ==> r[0] != '0')
  {
    ColonAt(TwoDigits(seconds / 60), TwoDigits(seconds % 60));
  }

  /** Below 100 minutes the clock always reads `MM:SS`, five characters. */
  lemma FormatTimeWidth(seconds: nat)
    requires seconds < 6000
    ensures |FormatTime(seconds)| == 5
  {
  }

  /** The state of one attempt. Loading -> active (quiz set) or not found (quiz
      unset, loading over) -> completed. */
  class QuizSession {
    var loading: bool
    var quiz: Option<Quiz>
    var currentQuestionIndex: int
    var answers: map<int, int>
    var timeLeft: int
    var quizCompleted: bool

    /** The question pointer is never negative, stays 0 until a quiz is
        loaded and points at a question whenever the quiz has any. */
    ghost predicate Valid()
      reads this
    {
      && currentQuestionIndex >= 0
      && (quiz.None? ==> currentQuestionIndex == 0)
      && (quiz.Some? && |quiz.value.questions| > 0 ==> currentQuestionIndex < |quiz.value.questions|)
    }

    /** The screen's initial state, before the fetch has resolved. */
    constructor ()
      ensures Valid()
      ensures loading && quiz == None && currentQuestionIndex == 0
      ensures answers == map[] && timeLeft == 0 && !quizCompleted
    {
      loading := true;
      quiz := None;
      currentQuestionIndex := 0;
      answers := map[];
      timeLeft := 0;
      quizCompleted := false;
    }

    /** `fetchQuiz`'s continuation, with the store's answer as a parameter
        (None for any failure): only a fetched, published quiz is taken, and its
        countdown starts at its limit in seconds. */
    method Load(fetched: Option<Quiz>) returns (found: bool)
      requires Valid() && quiz == None
      modifies this`loading, this`quiz, this`timeLeft
      ensures Valid() && !loading
      ensures found <==> fetched.Some? && fetched.value.status == Published
      ensures found ==> quiz == fetched && timeLeft == fetched.value.timeLimit * 60
      ensures !found ==> quiz == None && timeLeft == old(timeLeft)
    {
      found := fetched.Some? && fetched.value.status == Published;
      if found {
        quiz := fetched;
        timeLeft := fetched.value.timeLimit * 60;
      }
      loading := false;
    }

    /** `handleAnswerSelect`: records `optionIndex` for `questionIndex`,
        replacing any earlier choice; every other entry is kept. */
    method SelectAnswer(questionIndex: int, optionIndex: int)
      modifies this`answers
      ensures answers.Keys == old(answers).Keys + {questionIndex}
      ensures answers[questionIndex] == optionIndex
      ensures forall k :: k in old(answers) && k != questionIndex ==> answers[k] == old(answers)[k]
    {
      answers := answers[questionIndex := optionIndex];
    }

    /** `handleNextQuestion`: moves on unless at the last question. */
    method NextQuestion()
      requires Valid() && quiz.Some?
      modifies this`currentQuestionIndex
      ensures Valid()
      ensures old(currentQuestionIndex) < |quiz.value.questions| - 1
              ==> currentQuestionIndex == old(currentQuestionIndex) + 1
      ensures old(currentQuestionIndex) >= |quiz.value.questions| - 1
              ==> currentQuestionIndex == old(currentQuestionIndex)
    {
      if currentQuestionIndex < |quiz.value.questions| - 1 {
        currentQuestionIndex := currentQuestionIndex + 1;
      }
    }

    /** `handlePreviousQuestion`: moves back unless at the first question. */
    method PreviousQuestion()
      requires Valid()
      modifies this`currentQuestionIndex
      ensures Valid()
      ensures old(currentQuestionIndex) > 0 ==> currentQuestionIndex == old(currentQuestionIndex) - 1
      ensures old(currentQuestionIndex) == 0 ==> currentQuestionIndex == 0
    {
      if currentQuestionIndex > 0 {
        currentQuestionIndex := currentQuestionIndex - 1;
      }
    }

    /** One second passes. A tick is pending only while time is left, a quiz is
        loaded and the attempt is open; it then takes exactly one second off.
        Otherwise no timer is armed and nothing changes. */
    method Tick()
      modifies this`timeLeft
      ensures TimerStepAsWritten(old(timeLeft), quiz.Some?, quizCompleted) == ScheduleTick
              ==> timeLeft == old(timeLeft) - 1
      ensures TimerStepAsWritten(old(timeLeft), quiz.Some?, quizCompleted) != ScheduleTick
              ==> timeLeft == old(timeLeft)
    {
      if TimerStepAsWritten(timeLeft, quiz.Some?, quizCompleted) == ScheduleTick {
        timeLeft := timeLeft - 1;
      }
    }

    /** `handleSubmitQuiz`: closes the attempt and scores it. The record returned
        is the navigation state handed to the result screen. */
    method Submit() returns (result: ResultState)
      requires quiz.Some?
      modifies this`quizCompleted
      ensures quizCompleted
      ensures result == ResultState(CountCorrect(quiz.value.questions, answers),
                                    |quiz.value.questions|, answers, quiz.value.title)
      ensures 0 <= result.score <= result.total
    {
      quizCompleted := true;
      var score := ScoreAnswers(quiz.value.questions, answers);
      result := ResultState(score, |quiz.value.questions|, answers, quiz.value.title);
    }

    /** The timer effect's other branch: with no time left on a loaded, open
        attempt it submits by itself; once completed it never submits again. */
    method TimerEffect() returns (submitted: Option<ResultState>)
      modifies this`quizCompleted
      ensures submitted.Some? <==> TimerStepAsWritten(timeLeft, quiz.Some?, old(quizCompleted)) == AutoSubmit
      ensures submitted.Some? ==> (quiz.Some? && quizCompleted
        && submitted.value == ResultState(CountCorrect(quiz.value.questions, answers),
                                          |quiz.value.questions|, answers, quiz.value.title))
      ensures submitted.None? ==> quizCompleted == old(quizCompleted)
    {
      if TimerStepAsWritten(timeLeft, quiz.Some?, quizCompleted) == AutoSubmit {
        var result := Submit();
        submitted := Some(result);
      } else {
        submitted := None;
      }
    }
  }

  /** Opening the screen: initial state, the fetch result arrives, then the
      effects run once. A published quiz with time limit 0 is already submitted,
      unanswered, at this point. */
  method OpenQuiz(fetched: Option<Quiz>) returns (session: QuizSession, submitted: Option<ResultState>)
    ensures fresh(session) && session.Valid() && !session.loading
    ensures session.quiz == (if fetched.Some? && fetched.value.status == Published then fetched else None)
    ensures session.quiz != None ==> session.timeLeft == session.quiz.value.timeLimit * 60
    ensures session.answers == map[] && session.currentQuestionIndex == 0
    ensures session.quizCompleted <==> submitted.Some?
    ensures submitted.Some? <==> session.quiz != None && session.quiz.value.timeLimit == 0
    ensures submitted.Some? ==> submitted.value.score == 0 && submitted.value.answers == map[]
                                && submitted.value.total == |session.quiz.value.questions|
  {
    session := new QuizSession();
    var found := session.Load(fetched);
    submitted := session.TimerEffect();
    if submitted.Some? {
      UnansweredScoresZero(session.quiz.value.questions, map[]);
    }
  }

  /** Submitting twice (the button and the timer both call the handler) has no
      guard: the second call scores again, but on unchanged answers it hands
      the result screen the same record. */
  method SubmitTwice(session: QuizSession) returns (first: ResultState, second: ResultState)
    requires session.quiz.Some?
    modifies session`quizCompleted
    ensures session.quizCompleted && first == second
    ensures first.score == CountCorrect(session.quiz.value.questions, session.answers)
  {
    first := session.Submit();
    second := session.Submit();
  }

  /** With no user action, an open attempt with `t >= 0` seconds left is
      submitted by the timer after exactly `t` ticks, once, scoring the answers
      recorded so far. */
  method RunOutClock(session: QuizSession) returns (ticks: nat, result: ResultState)
    requires session.Valid() && session.quiz.Some? && !session.quizCompleted && session.timeLeft >= 0
    modifies session`timeLeft, session`quizCompleted
    ensures ticks == old(session.timeLeft)
    ensures session.quizCompleted && session.timeLeft == 0
    ensures session.quiz == old(session.quiz) && session.answers == old(session.answers)
    ensures result == ResultState(CountCorrect(session.quiz.value.questions, session.answers),
                                  |session.quiz.value.questions|, session.answers, session.quiz.value.title)
  {
    ticks := 0;
    var submitted := session.TimerEffect();
    while submitted.None?
      invariant session.timeLeft >= 0 && ticks + session.timeLeft == old(session.timeLeft)
      invariant submitted.None? ==> !session.quizCompleted && session.timeLeft > 0
      invariant submitted.Some? ==> (session.quizCompleted && session.timeLeft == 0
        && submitted.value == ResultState(CountCorrect(session.quiz.value.questions, session.answers),
                                          |session.quiz.value.questions|, session.answers, session.quiz.value.title))
      decreases session.timeLeft
    {
      session.Tick();
      ticks := ticks + 1;
      submitted := session.TimerEffect();
    }
    result := submitted.value;
  }
}
