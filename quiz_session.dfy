/** The quiz page (public/quiz.js): the page-level attempt state (`answers`,
    `currentQuestionIndex`, `timeRemaining` and the countdown interval), the
    handlers that change it, the submission step, and the pure pieces of the
    results and review screens. The interval is an explicit `Tick` call and a
    `timerActive` flag; `Date.now()` and the user's answer to `confirm()` are
    parameters. */
module QuizSession {
  import opened Wrappers
  import opened QuizTypes
  import opened Scoring

  /** What `submitQuiz` produces. A trivia quiz is scored on the page, and the
      score is both shown and posted to save-api-quiz; a stored quiz's answers
      are posted to the server's submit route, which scores them. */
  datatype Submission =
    | ScoredLocally(score: int, correctAnswers: nat, totalQuestions: nat, results: seq<TextOutcome>, timeTaken: int)
    | SentToServer(answers: seq<Option<int>>, timeTaken: int)

  // ------------------------------------------------------------ answers

  /** `answers[i] = k`, as a value. */
  function Select(answers: seq<Option<int>>, i: nat, k: int): (r: seq<Option<int>>)
    requires i < |answers|
    ensures |r| == |answers| && r[i] == Some(k)
    ensures forall j :: 0 <= j < |answers| && j != i ==> r[j] == answers[j]
  {
    answers[i := Some(k)]
  }

  /** Choosing the same option again changes nothing. */
  lemma SelectIdempotent(answers: seq<Option<int>>, i: nat, k: int)
    requires i < |answers|
    ensures Select(Select(answers, i, k), i, k) == Select(answers, i, k)
  {
  }

  /** The last choice on a question is the one that stays. */
  lemma SelectLastWins(answers: seq<Option<int>>, i: nat, k1: int, k2: int)
    requires i < |answers|
    ensures Select(Select(answers, i, k1), i, k2) == Select(answers, i, k2)
  {
  }

  /** Choices on different questions commute, so the order of answering does not
      change the final answers, hence not the score. */
  lemma SelectCommutes(answers: seq<Option<int>>, i: nat, k: int, j: nat, m: int, key: seq<Question>)
    requires i < |answers| && j < |answers| && i != j
    ensures Select(Select(answers, i, k), j, m) == Select(Select(answers, j, m), i, k)
    ensures CorrectCount(Select(Select(answers, i, k), j, m), key) == CorrectCount(Select(Select(answers, j, m), i, k), key)
  {
  }

  /** `answers.filter(a => a === null).length`. */
  function Unanswered(answers: seq<Option<int>>): (n: nat)
    ensures n <= |answers|
  {
    if answers == [] then 0
    else Unanswered(answers[..|answers| - 1]) + (if answers[|answers| - 1].None? then 1 else 0)
  }

  lemma {:induction false} UnansweredZeroIff(answers: seq<Option<int>>)
    ensures Unanswered(answers) == 0 <==> forall i :: 0 <= i < |answers| ==> answers[i].Some?
  {
    if answers != [] {
      var init := answers[..|answers| - 1];
      UnansweredZeroIff(init);
      assert forall i :: 0 <= i < |init| ==> init[i] == answers[i];
    }
  }

  lemma {:induction false} UnansweredAllNone(n: nat)
    ensures Unanswered(seq(n, _ => None)) == n
  {
    if n > 0 {
      var all: seq<Option<int>> := seq(n, _ => None);
      assert all[..n - 1] == seq(n - 1, _ => None);
      UnansweredAllNone(n - 1);
    }
  }

  /** What `submitQuiz` hands on for these answers after `timeTaken` seconds:
      for a trivia quiz the page's own score (the count of answers equal to the
      key, its rounded percentage, and one result line per question); for a
      stored quiz the answers themselves, for the server to score. */
  predicate SubmissionOf(s: Submission, questions: seq<Question>, answers: seq<Option<int>>, isApiQuiz: bool, timeTaken: int)
  {
    && s.timeTaken == timeTaken
    && (isApiQuiz ==>
        && |questions| > 0 && |answers| == |questions| && KeyInRange(questions) && AnswersInRange(questions, answers)
        && s.ScoredLocally?
        && s.correctAnswers == CorrectCount(answers, questions)
        && s.totalQuestions == |questions|
        && s.score == Percent(s.correctAnswers, |questions|) && 0 <= s.score <= 100
        && |s.results| == |questions|
        && (forall i :: 0 <= i < |questions| ==>
              && (s.results[i].isCorrect <==> answers[i] == Some(questions[i].correctAnswer))
              && s.results[i].userAnswer == (if answers[i].None? then NoAnswer else questions[i].options[answers[i].value])
              && s.results[i].correctAnswer == questions[i].options[questions[i].correctAnswer]))
    && (!isApiQuiz ==> s == SentToServer(answers, timeTaken))
  }

  // ------------------------------------------------------------ session

  class Session {
    /** The quiz's questions (the answer key travels with a trivia quiz only). */
    const questions: seq<Question>
    /** `quiz.isApiQuiz`: the quiz came from the trivia adapter. */
    const isApiQuiz: bool
    /** `startTime`: `Date.now()` when the page script was loaded. */
    const startTime: int

    var answers: seq<Option<int>>
    var currentQuestionIndex: int
    var timeRemaining: int
    /** Whether the countdown interval is still scheduled. */
    var timerActive: bool

    ghost predicate Valid()
      reads this
    {
      && |questions| > 0
      && |answers| == |questions|
      && 0 <= currentQuestionIndex < |questions|
      && (isApiQuiz ==> KeyInRange(questions))
      && AnswersInRange(questions, answers)
    }

    /** `initializeQuiz`: one `null` per question, the countdown set to the time
        limit and started. The quiz page cannot render a quiz without questions. */
    constructor Initialize(questions: seq<Question>, timeLimit: int, isApiQuiz: bool, startTime: int)
      requires |questions| > 0
      requires isApiQuiz ==> KeyInRange(questions)
      ensures Valid()
      ensures this.questions == questions && this.isApiQuiz == isApiQuiz && this.startTime == startTime
      ensures answers == seq(|questions|, _ => None) && Unanswered(answers) == |questions|
      ensures currentQuestionIndex == 0
      ensures timeRemaining == timeLimit && timerActive
    {
      this.questions := questions;
      this.isApiQuiz := isApiQuiz;
      this.startTime := startTime;
      answers := seq(|questions|, _ => None);
      currentQuestionIndex := 0;
      timeRemaining := timeLimit;
      timerActive := true;
      new;
      UnansweredAllNone(|questions|);
    }

    /** `selectAnswer(optionIndex)`: overwrite the current question's slot. The
        page only offers the current question's option indices. */
    method SelectAnswer(optionIndex: int)
      requires Valid()
      requires 0 <= optionIndex < |questions[currentQuestionIndex].options|
      modifies this
      ensures Valid()
      ensures answers == Select(old(answers), old(currentQuestionIndex), optionIndex)
      ensures currentQuestionIndex == old(currentQuestionIndex)
      ensures timeRemaining == old(timeRemaining) && timerActive == old(timerActive)
    {
      answers := answers[currentQuestionIndex := Some(optionIndex)];
    }

    /** The previous-question button: step back unless on the first question. */
    method Prev()
      requires Valid()
      modifies this
      ensures Valid()
      ensures currentQuestionIndex == if old(currentQuestionIndex) > 0 then old(currentQuestionIndex) - 1 else 0
      ensures answers == old(answers)
      ensures timeRemaining == old(timeRemaining) && timerActive == old(timerActive)
    {
      if currentQuestionIndex > 0 {
        currentQuestionIndex := currentQuestionIndex - 1;
      }
    }

    /** The next-question button: step forward unless on the last question. */
    method Next()
      requires Valid()
      modifies this
      ensures Valid()
      ensures currentQuestionIndex ==
        if old(currentQuestionIndex) < |questions| - 1 then old(currentQuestionIndex) + 1 else old(currentQuestionIndex)
      ensures answers == old(answers)
      ensures timeRemaining == old(timeRemaining) && timerActive == old(timerActive)
    {
      if currentQuestionIndex < |questions| - 1 {
        currentQuestionIndex := currentQuestionIndex + 1;
      }
    }

    /** `submitQuiz`: cancel the countdown first, take the elapsed whole seconds
        since the page loaded, then score locally (trivia quiz) or hand the
        answers to the server (stored quiz). */
    method Submit(now: int) returns (s: Submission)
      requires Valid()
      modifies this
      ensures Valid() && !timerActive
      ensures answers == old(answers) && currentQuestionIndex == old(currentQuestionIndex)
      ensures timeRemaining == old(timeRemaining)
      ensures SubmissionOf(s, questions, answers, isApiQuiz, (now - startTime) / 1000)
    {
      timerActive := false;
      var timeTaken := (now - startTime) / 1000;
      if isApiQuiz {
        var correct, results, score := ScoreLocally(questions, answers);
        s := ScoredLocally(score, correct, |questions|, results, timeTaken);
      } else {
        s := SentToServer(answers, timeTaken);
      }
    }

    /** One firing of the one-second interval. A cancelled interval never fires.
        When the countdown reaches zero the interval is cancelled and the quiz
        is submitted with no confirmation (`autoSubmitQuiz`). */
    method Tick(now: int) returns (auto: Option<Submission>)
      requires Valid()
      modifies this
      ensures Valid()
      ensures answers == old(answers) && currentQuestionIndex == old(currentQuestionIndex)
      ensures !old(timerActive) ==> auto.None? && timeRemaining == old(timeRemaining) && !timerActive
      ensures old(timerActive) ==> timeRemaining == old(timeRemaining) - 1
      ensures auto.Some? <==> old(timerActive) && timeRemaining <= 0
      ensures timerActive <==> old(timerActive) && timeRemaining > 0
      ensures auto.Some? ==> SubmissionOf(auto.value, questions, answers, isApiQuiz, (now - startTime) / 1000)
    {
      auto := None;
      if timerActive {
        timeRemaining := timeRemaining - 1;
        if timeRemaining <= 0 {
          timerActive := false;
          var s := Submit(now);
          auto := Some(s);
        }
      }
    }

    /** The submit button: with unanswered questions the user is asked first
        and may back out; with none, submission goes ahead unasked. */
    method SubmitClicked(confirmed: bool, now: int) returns (unanswered: nat, submitted: Option<Submission>)
      requires Valid()
      modifies this
      ensures Valid()
      ensures unanswered == Unanswered(old(answers))
      ensures submitted.Some? <==> unanswered == 0 || confirmed
      ensures submitted.None? ==> timerActive == old(timerActive) && timeRemaining == old(timeRemaining)
      ensures submitted.Some? ==> !timerActive
      ensures submitted.Some? ==> SubmissionOf(submitted.value, questions, answers, isApiQuiz, (now - startTime) / 1000)
      ensures answers == old(answers) && currentQuestionIndex == old(currentQuestionIndex)
    {
      unanswered := Unanswered(answers);
      submitted := None;
      if unanswered > 0 && !confirmed {
        return;
      }
      var s := Submit(now);
      submitted := Some(s);
    }

    /** The exit button: a confirmed exit cancels the countdown. */
    method Exit(confirmed: bool)
      requires Valid()
      modifies this
      ensures Valid()
      ensures timerActive == (old(timerActive) && !confirmed)
      ensures answers == old(answers) && currentQuestionIndex == old(currentQuestionIndex)
      ensures timeRemaining == old(timeRemaining)
    {
      if confirmed {
        timerActive := false;
      }
    }

    /** The review button: back to the first question, for review. */
    method StartReview()
      requires Valid()
      modifies this
      ensures Valid() && currentQuestionIndex == 0
      ensures answers == old(answers) && timerActive == old(timerActive) && timeRemaining == old(timeRemaining)
    {
      currentQuestionIndex := 0;
    }
  }

  /** A countdown that has fired its auto-submission never fires again: two
      ticks in a row submit at most once. */
  method TickTwice(s: Session, now1: int, now2: int) returns (first: Option<Submission>, second: Option<Submission>)
    requires s.Valid()
    modifies s
    ensures s.Valid()
    ensures !(first.Some? && second.Some?)
  {
    first := s.Tick(now1);
    second := s.Tick(now2);
  }

  // ------------------------------------------------------- results screen

  datatype Headline = ExcellentWork | GoodJob | KeepPracticing

  /** The results modal's headline: 80 and above, 60 and above, the rest. */
  function HeadlineFor(score: int): (h: Headline)
    ensures h == ExcellentWork <==> score >= 80
    ensures h == GoodJob <==> 60 <= score < 80
    ensures h == KeepPracticing <==> score < 60
  {
    if score >= 80 then ExcellentWork else if score >= 60 then GoodJob else KeepPracticing
  }

  /** `incorrectCount = totalQuestions - correctCount`: for a quiz scored here,
      the number of questions not answered right among the first `k`. */
  lemma {:induction false} IncorrectCount(answers: seq<Option<int>>, key: seq<Question>, k: nat)
    requires k <= |key|
    ensures k - CorrectUpTo(answers, key, k) == |set i | 0 <= i < k && !Matches(answers, key, i)|
  {
    if k > 0 {
      IncorrectCount(answers, key, k - 1);
      var before := set i | 0 <= i < k - 1 && !Matches(answers, key, i);
      var now := set i | 0 <= i < k && !Matches(answers, key, i);
      if Matches(answers, key, k - 1) {
        assert now == before;
      } else {
        assert now == before + {k - 1};
      }
    }
  }

  // -------------------------------------------------------- review screen

  datatype Mark = Plain | CorrectMark | WrongMark

  /** The mark beside option `index` in review: the key's option is always
      marked right; the user's option is marked wrong when it is not the key's. */
  function MarkAt(index: int, userAnswer: Option<int>, correctAnswer: int): (m: Mark)
    ensures m == CorrectMark <==> index == correctAnswer
    ensures m == WrongMark <==> userAnswer == Some(index) && index != correctAnswer
  {
    if userAnswer.Some? && index == userAnswer.value && index != correctAnswer then WrongMark
    else if index == correctAnswer then CorrectMark
    else Plain
  }

  function ReviewMarks(optionCount: nat, userAnswer: Option<int>, correctAnswer: int): (m: seq<Mark>)
    ensures |m| == optionCount
    ensures forall i :: 0 <= i < optionCount ==> (m[i] == CorrectMark <==> i == correctAnswer)
    ensures forall i :: 0 <= i < optionCount ==>
      (m[i] == WrongMark <==> userAnswer == Some(i) && i != correctAnswer)
  {
    seq(optionCount, i => MarkAt(i, userAnswer, correctAnswer))
  }

  datatype ReviewNote = NotAttempted | AnsweredRight | AnsweredWrong

  /** The note under a reviewed question: unanswered, or the stored verdict. */
  function NoteFor(userAnswer: Option<int>, isCorrect: bool): (n: ReviewNote)
    ensures n == NotAttempted <==> userAnswer.None?
    ensures n == AnsweredRight <==> userAnswer.Some? && isCorrect
  {
    if userAnswer.None? then NotAttempted else if isCorrect then AnsweredRight else AnsweredWrong
  }
}
