/** The result screen (src/pages/QuizResult.jsx): everything it derives from
    the navigation state and the re-fetched quiz, as pure functions. */
module QuizResult {
  import opened QuizModel
  import opened Scoring

  /** `location.state || {}` destructured with defaults: a missing state reads
      as score 0 out of 0, no answers and an empty title. */
  function ResolveState(nav: Option<ResultState>): (s: ResultState)
    ensures nav.Some? ==> s == nav.value
    ensures nav.None? ==> s.score == 0 && s.total == 0 && s.answers == map[] && s.quizTitle == ""
  {
    match nav
    case Some(state) => state
    case None => ResultState(0, 0, map[], "")
  }

  /** `total > 0 ? Math.round((score / total) * 100) : 0`, in exact arithmetic:
      the integer nearest to 100 * score / total, halves rounded up. */
  function Percentage(score: int, total: int): (p: int)
    ensures total <= 0 ==> p == 0
    ensures total > 0 ==> 2 * total * p <= 200 * score + total < 2 * total * (p + 1)
  {
    if total > 0 then (200 * score + total) / (2 * total) else 0
  }

  /** A score between 0 and the total gives a percentage between 0 and 100. */
  lemma PercentageBounds(score: int, total: int)
    requires 0 <= score <= total
    ensures 0 <= Percentage(score, total) <= 100
  {
    if total > 0 {
      var p := Percentage(score, total);
      assert 2 * total * p < 2 * total * 101 by {
        assert 200 * score + total <= 201 * total;
      }
      MulCancel(2 * total, p, 101);
      assert 2 * total * -1 < 2 * total * p by {
        assert 2 * total * (p + 1) == 2 * total * p + 2 * total;
      }
      MulCancel(2 * total, -1, p);
    }
  }

  /** For a fixed total, a higher score never shows a lower percentage. */
  lemma PercentageMonotone(score1: int, score2: int, total: int)
    requires score1 <= score2
    ensures Percentage(score1, total) <= Percentage(score2, total)
  {
    if total > 0 {
      var p1, p2 := Percentage(score1, total), Percentage(score2, total);
      assert 2 * total * p1 < 2 * total * (p2 + 1);
      MulCancel(2 * total, p1, p2 + 1);
    }
  }

  lemma MulCancel(a: int, x: int, y: int)
    requires a > 0 && a * x < a * y
    ensures x < y
  {
    assert a * y - a * x == a * (y - x);
  }

  /** Full marks show 100%; a quiz without questions shows 0%. */
  lemma PercentageExtremes(total: int)
    ensures total > 0 ==> Percentage(total, total) == 100 && Percentage(0, total) == 0
    ensures Percentage(0, 0) == 0
  {
    if total > 0 {
      var full, none := Percentage(total, total), Percentage(0, total);
      assert 2 * total * full < 2 * total * 101 by {
        assert 2 * total * full <= 201 * total;
      }
      MulCancel(2 * total, full, 101);
      assert 2 * total * 100 < 2 * total * (full + 1) by {
        assert 201 * total < 2 * total * (full + 1);
      }
      MulCancel(2 * total, 100, full + 1);
      assert 2 * total * none < 2 * total * 1;
      MulCancel(2 * total, none, 1);
      assert 2 * total * -1 < 2 * total * none by {
        assert 2 * total * (none + 1) == 2 * total * none + 2 * total;
      }
      MulCancel(2 * total, -1, none);
    }
  }

  /** Two correct out of three shows 67%. */
  lemma TwoOfThreeIsSixtySeven()
    ensures Percentage(2, 3) == 67
  {
  }

  /** Missing navigation state shows 0%. */
  lemma MissingStateShowsZero()
    ensures Percentage(ResolveState(None).score, ResolveState(None).total) == 0
  {
  }

  /** A submitted attempt always shows a percentage between 0 and 100. */
  lemma SubmittedPercentageInRange(questions: seq<Question>, answers: map<int, int>)
    ensures 0 <= Percentage(CountCorrect(questions, answers), |questions|) <= 100
  {
    PercentageBounds(CountCorrect(questions, answers), |questions|);
  }

  const Green := "text-green-600"
  const Yellow := "text-yellow-600"
  const Red := "text-red-600"

  const Excellent := "Excellent work!"
  const GoodJob := "Good job!"
  const KeepPracticing := "Keep practicing!"

  /** `getScoreColor`: green from 80, yellow from 60, red below. */
  function ScoreColor(percentage: int): (c: string)
    ensures c == Green <==> percentage >= 80
    ensures c == Yellow <==> 60 <= percentage < 80
    ensures c == Red <==> percentage < 60
  {
    if percentage >= 80 then Green
    else if percentage >= 60 then Yellow
    else Red
  }

  /** `getScoreMessage`: the same thresholds as the colour. */
  function ScoreMessage(percentage: int): (m: string)
    ensures m == Excellent <==> percentage >= 80
    ensures m == GoodJob <==> 60 <= percentage < 80
    ensures m == KeepPracticing <==> percentage < 60
  {
    if percentage >= 80 then Excellent
    else if percentage >= 60 then GoodJob
    else KeepPracticing
  }

  /** The message band always agrees with the colour band. */
  lemma MessageAgreesWithColor(percentage: int)
    ensures ScoreColor(percentage) == Green <==> ScoreMessage(percentage) == Excellent
    ensures ScoreColor(percentage) == Yellow <==> ScoreMessage(percentage) == GoodJob
    ensures ScoreColor(percentage) == Red <==> ScoreMessage(percentage) == KeepPracticing
  {
  }

  /** Rank of a colour band, worst first. */
  function ColorRank(c: string): nat {
    if c == Green then 2 else if c == Yellow then 1 else 0
  }

  /** A higher percentage never gets a worse colour. */
  lemma ColorMonotone(p1: int, p2: int)
    requires p1 <= p2
    ensures ColorRank(ScoreColor(p1)) <= ColorRank(ScoreColor(p2))
  {
  }

  /** `answers[index]`: the recorded choice for a question, if any. */
  function UserAnswer(answers: map<int, int>, index: int): (a: Option<int>)
    ensures a.Some? <==> index in answers
    ensures a.Some? ==> a.value == answers[index]
  {
    if index in answers then Some(answers[index]) else None
  }

  /** The per-question mark of the review: the scorer's own rule. */
  predicate IsCorrect(answers: map<int, int>, index: int, q: Question)
    ensures IsCorrect(answers, index, q) <==> UserAnswer(answers, index) == Some(q.correctAnswer)
  {
    AnsweredCorrectly(answers, index, q)
  }

  /** How an option is shown in the review: green for the key, red for the
      user's wrong choice, grey otherwise. */
  datatype Highlight = CorrectOption | WrongChoice | Plain

  /** The option-class chain: the key first, then the user's choice when the
      question was answered wrongly, then everything else. */
  function OptionHighlight(optIndex: int, correctAnswer: int, userAnswer: Option<int>): (h: Highlight)
    ensures h == CorrectOption <==> optIndex == correctAnswer
    ensures h == WrongChoice <==> userAnswer == Some(optIndex) && optIndex != correctAnswer
    ensures h == Plain <==> optIndex != correctAnswer && userAnswer != Some(optIndex)
  {
    var isCorrect := userAnswer == Some(correctAnswer);
    if optIndex == correctAnswer then CorrectOption
    else if userAnswer == Some(optIndex) && !isCorrect then WrongChoice
    else Plain
  }

  /** The "(Correct Answer)" tag. */
  predicate CorrectTag(optIndex: int, correctAnswer: int)
    ensures CorrectTag(optIndex, correctAnswer)
            ==> forall u :: !YourAnswerTag(optIndex, correctAnswer, u)
  {
    optIndex == correctAnswer
  }

  /** The "(Your Answer)" tag: the user's choice, when it differs from the key. */
  predicate YourAnswerTag(optIndex: int, correctAnswer: int, userAnswer: Option<int>)
    ensures YourAnswerTag(optIndex, correctAnswer, userAnswer)
            ==> userAnswer == Some(optIndex) && optIndex != correctAnswer
  {
    userAnswer == Some(optIndex) && userAnswer != Some(correctAnswer)
  }

  /** The tags follow the highlight: "(Correct Answer)" on the green option
      only, "(Your Answer)" on the red option only. */
  lemma TagsFollowHighlight(optIndex: int, correctAnswer: int, userAnswer: Option<int>)
    ensures CorrectTag(optIndex, correctAnswer)
            <==> OptionHighlight(optIndex, correctAnswer, userAnswer) == CorrectOption
    ensures YourAnswerTag(optIndex, correctAnswer, userAnswer)
            <==> OptionHighlight(optIndex, correctAnswer, userAnswer) == WrongChoice
  {
  }

  /** Within one question at most one option is red, and a red option exists
      exactly when the question was answered wrongly with an option it has.
      A correctly answered question shows no red at all. */
  lemma AtMostOneWrongChoice(q: Question, answers: map<int, int>, index: int)
    ensures forall o1, o2 ::
      (OptionHighlight(o1, q.correctAnswer, UserAnswer(answers, index)) == WrongChoice &&
       OptionHighlight(o2, q.correctAnswer, UserAnswer(answers, index)) == WrongChoice) ==> o1 == o2
    ensures (exists o :: 0 <= o < |q.options|
               && OptionHighlight(o, q.correctAnswer, UserAnswer(answers, index)) == WrongChoice)
            <==> index in answers && !IsCorrect(answers, index, q) && 0 <= answers[index] < |q.options|
  {
    var user := UserAnswer(answers, index);
    if index in answers && !IsCorrect(answers, index, q) && 0 <= answers[index] < |q.options| {
      assert OptionHighlight(answers[index], q.correctAnswer, user) == WrongChoice;
    }
  }

  /** One row of the detailed results: its mark and its options' highlights. */
  datatype ReviewRow = ReviewRow(isCorrect: bool, highlights: seq<Highlight>)

  function Row(answers: map<int, int>, index: int, q: Question): (row: ReviewRow)
    ensures |row.highlights| == |q.options|
  {
    var user := UserAnswer(answers, index);
    ReviewRow(IsCorrect(answers, index, q),
              seq(|q.options|, o requires 0 <= o < |q.options| => OptionHighlight(o, q.correctAnswer, user)))
  }

  /** `quiz.questions.map(...)`: one review row per question, in order. */
  function ReviewRows(questions: seq<Question>, answers: map<int, int>): (rows: seq<ReviewRow>)
    ensures |rows| == |questions|
    ensures forall i :: 0 <= i < |rows| ==> rows[i] == Row(answers, i, questions[i])
  {
    seq(|questions|, i requires 0 <= i < |questions| => Row(answers, i, questions[i]))
  }

  /** How many rows are marked correct. */
  function CountMarked(rows: seq<ReviewRow>): (n: nat)
    ensures n <= |rows|
  {
    if rows == [] then 0
    else CountMarked(rows[..|rows| - 1]) + (if rows[|rows| - 1].isCorrect then 1 else 0)
  }

  /** The review marks exactly as many questions correct as the scorer counted,
      when both see the same quiz and answers. */
  lemma {:induction false} MarkedRowsEqualScore(questions: seq<Question>, answers: map<int, int>)
    ensures CountMarked(ReviewRows(questions, answers)) == CountCorrect(questions, answers)
  {
    if questions != [] {
      var last := |questions| - 1;
      var rows := ReviewRows(questions, answers);
      assert rows[..last] == ReviewRows(questions[..last], answers);
      MarkedRowsEqualScore(questions[..last], answers);
    }
  }
}
