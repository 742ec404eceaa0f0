/** Scoring an attempt against the answer key. The server scores stored
    quizzes (server.js, submit handler) and records indices; the quiz page
    scores trivia quizzes itself (quiz.js, `submitQuiz`) and records option
    texts. Both count a question as right exactly when the answer slot holds
    the key's index, and both round the percentage. */
module Scoring {
  import opened Wrappers
  import opened QuizTypes

  /** The answer in slot `i`; a slot past the end of the array reads as `undefined`. */
  function AnswerAt(answers: seq<Option<int>>, i: nat): Option<int>
  {
    if i < |answers| then answers[i] else None
  }

  /** `answers[i] === key[i].correctAnswer`: `null` and `undefined` never match a number. */
  predicate Matches(answers: seq<Option<int>>, key: seq<Question>, i: nat)
    requires i < |key|
  {
    AnswerAt(answers, i) == Some(key[i].correctAnswer)
  }

  /** How many of the first `k` questions are answered right. */
  function CorrectUpTo(answers: seq<Option<int>>, key: seq<Question>, k: nat): (c: nat)
    requires k <= |key|
    ensures c <= k
  {
    if k == 0 then 0
    else CorrectUpTo(answers, key, k - 1) + (if Matches(answers, key, k - 1) then 1 else 0)
  }

  function CorrectCount(answers: seq<Option<int>>, key: seq<Question>): nat
  {
    CorrectUpTo(answers, key, |key|)
  }

  /** The count is the number of questions answered right. */
  lemma {:induction false} CorrectUpToIsCardinality(answers: seq<Option<int>>, key: seq<Question>, k: nat)
    requires k <= |key|
    ensures CorrectUpTo(answers, key, k) == |set i | 0 <= i < k && Matches(answers, key, i)|
  {
    if k > 0 {
      CorrectUpToIsCardinality(answers, key, k - 1);
      var before := set i | 0 <= i < k - 1 && Matches(answers, key, i);
      var now := set i | 0 <= i < k && Matches(answers, key, i);
      if Matches(answers, key, k - 1) {
        assert forall x :: x in now <==> x in before || x == k - 1;
        assert now == before + {k - 1} && k - 1 !in before;
      } else {
        assert forall x :: x in now <==> x in before;
        assert now == before;
      }
    }
  }

  /** `Math.round(a / b)` for `b > 0`, on exact rationals: the nearest integer, halves rounded up. */
  function RoundDiv(a: int, b: int): (r: int)
    requires b > 0
    ensures b * (2 * r - 1) <= 2 * a < b * (2 * r + 1)
  {
    var q := (2 * a + b) / (2 * b);
    assert 2 * a + b == (2 * b) * q + (2 * a + b) % (2 * b);
    q
  }

  lemma MulMonotone(b: int, x: int, y: int)
    requires b > 0 && x < y
    ensures b * x < b * y
  {
  }

  lemma MulMonotoneLe(b: int, x: int, y: int)
    requires b > 0 && x <= y
    ensures b * x <= b * y
  {
  }

  /** Two integers within one half of `a/b` are equal. */
  lemma RoundingUnique(a: int, b: int, r: int, q: int)
    requires b > 0
    requires b * (2 * r - 1) <= 2 * a < b * (2 * r + 1)
    requires b * (2 * q - 1) <= 2 * a < b * (2 * q + 1)
    ensures r == q
  {
    if r < q {
      MulMonotone(b, 2 * r + 1, 2 * q);
    } else if r > q {
      MulMonotone(b, 2 * q + 1, 2 * r);
    }
  }

  /** The rounding condition pins the result down: no other integer meets it. */
  lemma RoundDivUnique(a: int, b: int, r: int)
    requires b > 0
    requires b * (2 * r - 1) <= 2 * a < b * (2 * r + 1)
    ensures r == RoundDiv(a, b)
  {
    RoundingUnique(a, b, r, RoundDiv(a, b));
  }

  /** `Math.round((correct / total) * 100)`: by `RoundDiv`'s contract, within one
      half of `100 * correct / total`. */
  function Percent(correct: int, total: int): int
    requires total > 0
  {
    RoundDiv(100 * correct, total)
  }

  lemma PercentBounds(correct: int, total: int)
    requires total > 0 && 0 <= correct <= total
    ensures 0 <= Percent(correct, total) <= 100
    ensures correct == 0 ==> Percent(correct, total) == 0
    ensures correct == total ==> Percent(correct, total) == 100
  {
    var r := Percent(correct, total);
    if r < 0 {
      MulMonotone(total, 2 * r + 1, 0);
    } else if r > 100 {
      MulMonotone(total, 200, 2 * r - 1);
    }
    if correct == 0 {
      RoundDivUnique(0, total, 0);
    } else if correct == total {
      RoundDivUnique(100 * total, total, 100);
    }
  }

  /** More right answers never give a lower score. */
  lemma PercentMonotone(c1: int, c2: int, total: int)
    requires total > 0 && c1 <= c2
    ensures Percent(c1, total) <= Percent(c2, total)
  {
    var r1, r2 := Percent(c1, total), Percent(c2, total);
    if r1 > r2 {
      MulMonotoneLe(total, 2 * r2 + 1, 2 * r1 - 1);
    }
  }

  /** The server's per-question loop: compare, count, record indices, then round. */
  method ScoreSubmission(key: seq<Question>, answers: seq<Option<int>>)
    returns (correctAnswers: nat, results: seq<IndexOutcome>, score: int)
    requires |key| > 0
    ensures correctAnswers == CorrectCount(answers, key)
    ensures |results| == |key|
    ensures forall i :: 0 <= i < |key| ==>
      results[i] == IndexOutcome(key[i].question, AnswerAt(answers, i), key[i].correctAnswer, Matches(answers, key, i))
    ensures forall i :: 0 <= i < |key| ==> (results[i].isCorrect <==> results[i].userAnswer == Some(key[i].correctAnswer))
    ensures score == Percent(correctAnswers, |key|) && 0 <= score <= 100
  {
    correctAnswers, results := 0, [];
    var i := 0;
    while i < |key|
      invariant 0 <= i <= |key|
      invariant correctAnswers == CorrectUpTo(answers, key, i)
      invariant |results| == i
      invariant forall k :: 0 <= k < i ==>
        results[k] == IndexOutcome(key[k].question, AnswerAt(answers, k), key[k].correctAnswer, Matches(answers, key, k))
    {
      var userAnswer := AnswerAt(answers, i);
      var isCorrect := userAnswer == Some(key[i].correctAnswer);
      if isCorrect {
        correctAnswers := correctAnswers + 1;
      }
      results := results + [IndexOutcome(key[i].question, userAnswer, key[i].correctAnswer, isCorrect)];
      i := i + 1;
    }
    score := Percent(correctAnswers, |key|);
    PercentBounds(correctAnswers, |key|);
  }

  /** Every key index names one of its question's options. */
  predicate KeyInRange(key: seq<Question>)
  {
    forall i :: 0 <= i < |key| ==> 0 <= key[i].correctAnswer < |key[i].options|
  }

  /** Every recorded answer names one of its question's options (the page only offers those). */
  predicate AnswersInRange(key: seq<Question>, answers: seq<Option<int>>)
    requires |answers| == |key|
  {
    forall i :: 0 <= i < |key| && answers[i].Some? ==> 0 <= answers[i].value < |key[i].options|
  }

  /** The row the quiz page records for question `i`. */
  function LocalOutcome(key: seq<Question>, answers: seq<Option<int>>, i: nat): (o: TextOutcome)
    requires |answers| == |key| && i < |key|
    requires KeyInRange(key) && AnswersInRange(key, answers)
    ensures o.question == key[i].question
    ensures o.isCorrect <==> answers[i] == Some(key[i].correctAnswer)
    ensures o.userAnswer == if answers[i].None? then NoAnswer else key[i].options[answers[i].value]
    ensures o.correctAnswer == key[i].options[key[i].correctAnswer]
  {
    var shown := if answers[i].Some? then key[i].options[answers[i].value] else NoAnswer;
    TextOutcome(key[i].question, shown, key[i].options[key[i].correctAnswer], answers[i] == Some(key[i].correctAnswer))
  }

  /** The quiz page's loop for a trivia quiz: the same comparison, option texts recorded. */
  method ScoreLocally(key: seq<Question>, answers: seq<Option<int>>)
    returns (correctAnswers: nat, results: seq<TextOutcome>, score: int)
    requires |key| > 0 && |answers| == |key|
    requires KeyInRange(key) && AnswersInRange(key, answers)
    ensures correctAnswers == CorrectCount(answers, key)
    ensures |results| == |key|
    ensures forall i :: 0 <= i < |key| ==>
      && results[i].question == key[i].question
      && (results[i].isCorrect <==> answers[i] == Some(key[i].correctAnswer))
      && results[i].userAnswer == (if answers[i].None? then NoAnswer else key[i].options[answers[i].value])
      && results[i].correctAnswer == key[i].options[key[i].correctAnswer]
    ensures score == Percent(correctAnswers, |key|) && 0 <= score <= 100
  {
    correctAnswers, results := 0, [];
    var i := 0;
    while i < |key|
      invariant 0 <= i <= |key|
      invariant correctAnswers == CorrectUpTo(answers, key, i)
      invariant |results| == i
      invariant forall k :: 0 <= k < i ==> results[k] == LocalOutcome(key, answers, k)
    {
      var userAnswer := answers[i];
      var isCorrect := userAnswer == Some(key[i].correctAnswer);
      if isCorrect {
        correctAnswers := correctAnswers + 1;
      }
      var shown := if userAnswer.Some? then key[i].options[userAnswer.value] else NoAnswer;
      results := results + [TextOutcome(key[i].question, shown, key[i].options[key[i].correctAnswer], isCorrect)];
      assert results[i] == LocalOutcome(key, answers, i);
      i := i + 1;
    }
    score := Percent(correctAnswers, |key|);
    PercentBounds(correctAnswers, |key|);
  }

  /** The worked example: key [1, 0]; answers [1, 0], [0, 0] and [null, 0]. */
  lemma TwoQuestionExample(q0: Question, q1: Question)
    requires q0.correctAnswer == 1 && q1.correctAnswer == 0
    ensures CorrectCount([Some(1), Some(0)], [q0, q1]) == 2 && Percent(2, 2) == 100
    ensures CorrectCount([Some(0), Some(0)], [q0, q1]) == 1 && Percent(1, 2) == 50
    ensures CorrectCount([None, Some(0)], [q0, q1]) == 1
  {
    var key := [q0, q1];
    assert Matches([Some(1), Some(0)], key, 0) && Matches([Some(1), Some(0)], key, 1);
    assert !Matches([Some(0), Some(0)], key, 0) && Matches([Some(0), Some(0)], key, 1);
    assert !Matches([None, Some(0)], key, 0) && Matches([None, Some(0)], key, 1);
    assert CorrectUpTo([Some(1), Some(0)], key, 1) == 1;
    assert CorrectUpTo([Some(0), Some(0)], key, 1) == 0;
    assert CorrectUpTo([None, Some(0)], key, 1) == 0;
    RoundDivUnique(200, 2, 100);
    RoundDivUnique(100, 2, 50);
  }
}
