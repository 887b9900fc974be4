/** Scoring a quiz attempt: the correctness rule shared by the taking screen's
    scorer and the result screen's review, and the score it adds up to. */
module Scoring {
  import opened QuizModel

  /** Question `i` counts as answered correctly when an answer is recorded under
      index `i` and it is strictly equal to the question's key. A missing entry
      reads as `undefined`, which equals no number: unanswered is incorrect. */
  predicate AnsweredCorrectly(answers: map<int, int>, i: int, q: Question)
    ensures i !in answers ==> !AnsweredCorrectly(answers, i, q)
  {
    i in answers && answers[i] == q.correctAnswer
  }

  /** The number of questions answered correctly. */
  function CountCorrect(questions: seq<Question>, answers: map<int, int>): (n: nat)
    ensures n <= |questions|
  {
    if questions == [] then 0
    else
      var last := |questions| - 1;
      CountCorrect(questions[..last], answers)
        + (if AnsweredCorrectly(answers, last, questions[last]) then 1 else 0)
  }

  /** The indices of the questions answered correctly. */
  function CorrectIndices(questions: seq<Question>, answers: map<int, int>): (s: set<int>)
    ensures forall i :: i in s ==> 0 <= i < |questions| && i in answers
  {
    set i | 0 <= i < |questions| && AnsweredCorrectly(answers, i, questions[i])
  }

  /** The score is the number of correctly answered question indices. */
  lemma {:induction false} CountCorrectIsCardinality(questions: seq<Question>, answers: map<int, int>)
    ensures CountCorrect(questions, answers) == |CorrectIndices(questions, answers)|
  {
    if questions != [] {
      var last := |questions| - 1;
      var prefix := questions[..last];
      CountCorrectIsCardinality(prefix, answers);
      if AnsweredCorrectly(answers, last, questions[last]) {
        assert CorrectIndices(questions, answers) == CorrectIndices(prefix, answers) + {last};
      } else {
        assert CorrectIndices(questions, answers) == CorrectIndices(prefix, answers);
      }
    }
  }

  /** Full marks exactly when every question is answered correctly. */
  lemma {:induction false} FullScoreIffAllCorrect(questions: seq<Question>, answers: map<int, int>)
    ensures CountCorrect(questions, answers) == |questions|
        <==> forall i :: 0 <= i < |questions| ==> AnsweredCorrectly(answers, i, questions[i])
  {
    if questions != [] {
      var last := |questions| - 1;
      FullScoreIffAllCorrect(questions[..last], answers);
    }
  }

  /** Answers recorded under no question index do not change the score, so an
      attempt with nothing answered scores 0. */
  lemma {:induction false} UnansweredScoresZero(questions: seq<Question>, answers: map<int, int>)
    requires forall i :: 0 <= i < |questions| ==> i !in answers
    ensures CountCorrect(questions, answers) == 0
  {
    if questions != [] {
      UnansweredScoresZero(questions[..|questions| - 1], answers);
    }
  }

  /** The score depends on the answers only at the indices of the questions. */
  lemma {:induction false} ScoreDependsOnlyOnQuestionIndices(questions: seq<Question>, a: map<int, int>, b: map<int, int>)
    requires forall i :: 0 <= i < |questions| ==> (i in a <==> i in b) && (i in a ==> a[i] == b[i])
    ensures CountCorrect(questions, a) == CountCorrect(questions, b)
  {
    if questions != [] {
      ScoreDependsOnlyOnQuestionIndices(questions[..|questions| - 1], a, b);
    }
  }

  /** Recording the key for a question not yet answered correctly raises the
      score by exactly one; recording a wrong option for a question answered
      correctly lowers it by exactly one. */
  lemma {:induction false} AnswerChangesScoreByOne(questions: seq<Question>, answers: map<int, int>, i: int, option: int)
    requires 0 <= i < |questions|
    ensures !AnsweredCorrectly(answers, i, questions[i]) && option == questions[i].correctAnswer
            ==> CountCorrect(questions, answers[i := option]) == CountCorrect(questions, answers) + 1
    ensures AnsweredCorrectly(answers, i, questions[i]) && option != questions[i].correctAnswer
            ==> CountCorrect(questions, answers[i := option]) + 1 == CountCorrect(questions, answers)
  {
    var last := |questions| - 1;
    var prefix := questions[..last];
    if i == last {
      ScoreDependsOnlyOnQuestionIndices(prefix, answers, answers[i := option]);
    } else {
      AnswerChangesScoreByOne(prefix, answers, i, option);
    }
  }

  /** The scoring loop of `handleSubmitQuiz`: walk the questions in order and
      count one for each index whose recorded answer equals the key. */
  method ScoreAnswers(questions: seq<Question>, answers: map<int, int>) returns (score: nat)
    ensures score == CountCorrect(questions, answers)
    ensures score <= |questions|
  {
    score := 0;
    var index := 0;
    while index < |questions|
      invariant 0 <= index <= |questions|
      invariant score == CountCorrect(questions[..index], answers)
    {
      assert questions[..index + 1][..index] == questions[..index];
      if index in answers && answers[index] == questions[index].correctAnswer {
        score := score + 1;
      }
      index := index + 1;
    }
    assert questions[..index] == questions;
  }
}
