/** The dashboard's own computations (public/dashboard.js): the statistics
    shown over the user's results and the category filter over the quiz list. */
module Dashboard {
  import opened QuizTypes
  import opened Scoring

  /** Quizzes attempted, average score and best score, as the three stat cards show them. */
  datatype Stats = Stats(attempted: nat, average: int, best: int)

  /** `results.reduce((sum, r) => sum + r.score, 0)`. */
  function ScoreSum(rs: seq<ResultDoc>): int
  {
    if rs == [] then 0 else rs[0].score + ScoreSum(rs[1..])
  }

  /** `Math.max(...results.map(r => r.score))`. */
  function BestScore(rs: seq<ResultDoc>): (m: int)
    requires |rs| > 0
    ensures forall i :: 0 <= i < |rs| ==> rs[i].score <= m
    ensures exists i :: 0 <= i < |rs| && rs[i].score == m
  {
    if |rs| == 1 then rs[0].score
    else
      var m := BestScore(rs[1..]);
      assert forall i :: 1 <= i < |rs| ==> rs[i] == rs[1..][i - 1];
      if rs[0].score >= m then rs[0].score else m
  }

  /** The lowest score, for stating where the average lies. */
  ghost function WorstScore(rs: seq<ResultDoc>): (m: int)
    requires |rs| > 0
    ensures forall i :: 0 <= i < |rs| ==> m <= rs[i].score
    ensures exists i :: 0 <= i < |rs| && rs[i].score == m
  {
    if |rs| == 1 then rs[0].score
    else
      var m := WorstScore(rs[1..]);
      assert forall i :: 1 <= i < |rs| ==> rs[i] == rs[1..][i - 1];
      if rs[0].score <= m then rs[0].score else m
  }

  /** `updateStats`: zeros for no results; otherwise the count, the rounded mean and the maximum. */
  function UpdateStats(rs: seq<ResultDoc>): (s: Stats)
    ensures |rs| == 0 ==> s == Stats(0, 0, 0)
    ensures |rs| > 0 ==> s.attempted == |rs| && s.average == RoundDiv(ScoreSum(rs), |rs|)
    ensures |rs| > 0 ==> (forall i :: 0 <= i < |rs| ==> rs[i].score <= s.best) &&
                         (exists i :: 0 <= i < |rs| && rs[i].score == s.best)
  {
    if |rs| == 0 then Stats(0, 0, 0)
    else Stats(|rs|, RoundDiv(ScoreSum(rs), |rs|), BestScore(rs))
  }

  lemma {:induction false} SumBounds(rs: seq<ResultDoc>, lo: int, hi: int)
    requires forall i :: 0 <= i < |rs| ==> lo <= rs[i].score <= hi
    ensures |rs| * lo <= ScoreSum(rs) <= |rs| * hi
  {
    if rs != [] {
      assert forall i :: 0 <= i < |rs| - 1 ==> rs[1..][i] == rs[i + 1];
      SumBounds(rs[1..], lo, hi);
      assert |rs| * lo == (|rs| - 1) * lo + lo;
      assert |rs| * hi == (|rs| - 1) * hi + hi;
    }
  }

  /** The average lies between the worst and the best score. */
  lemma AverageWithinScores(rs: seq<ResultDoc>)
    requires |rs| > 0
    ensures WorstScore(rs) <= UpdateStats(rs).average <= UpdateStats(rs).best
  {
    var lo, hi, n := WorstScore(rs), BestScore(rs), |rs|;
    var a := ScoreSum(rs);
    SumBounds(rs, lo, hi);
    RoundDivWithin(a, n, lo, hi);
  }

  /** Rounding a quotient that lies in `[lo, hi]` stays in `[lo, hi]`. */
  lemma RoundDivWithin(a: int, n: int, lo: int, hi: int)
    requires n > 0 && n * lo <= a <= n * hi
    ensures lo <= RoundDiv(a, n) <= hi
  {
    var r := RoundDiv(a, n);
    if r > hi {
      MulMonotone(n, 2 * hi, 2 * r - 1);
    }
    if r < lo {
      MulMonotone(n, 2 * r + 1, 2 * lo);
    }
  }

  /** Scores 80, 60 and 100 show as three attempts, an 80% average and a 100% best. */
  lemma StatsExample(a: ResultDoc, b: ResultDoc, c: ResultDoc)
    requires a.score == 80 && b.score == 60 && c.score == 100
    ensures UpdateStats([a, b, c]) == Stats(3, 80, 100)
  {
    var rs := [a, b, c];
    assert rs[1..] == [b, c] && rs[1..][1..] == [c];
    assert ScoreSum([c]) == 100;
    assert ScoreSum([b, c]) == 160;
    assert ScoreSum(rs) == 240;
    RoundDivUnique(240, 3, 80);
    assert BestScore(rs) == 100;
  }

  /** `allQuizzes.filter(quiz => quiz.category === category)`. */
  function InCategory(quizzes: seq<Quiz>, category: string): (r: seq<Quiz>)
    ensures |r| <= |quizzes|
    ensures forall q :: q in r ==> q.category == category && q in quizzes
    ensures forall q :: q in quizzes && q.category == category ==> q in r
  {
    if quizzes == [] then []
    else
      var rest := InCategory(quizzes[1..], category);
      assert forall q :: q in quizzes[1..] ==> q in quizzes;
      assert forall q :: q in quizzes ==> q == quizzes[0] || q in quizzes[1..];
      if quizzes[0].category == category then [quizzes[0]] + rest else rest
  }

  /** The filter keeps the original order: it distributes over concatenation. */
  lemma {:induction false} InCategoryAppend(a: seq<Quiz>, b: seq<Quiz>, category: string)
    ensures InCategory(a + b, category) == InCategory(a, category) + InCategory(b, category)
  {
    if a != [] {
      assert (a + b)[0] == a[0];
      assert (a + b)[1..] == a[1..] + b;
      InCategoryAppend(a[1..], b, category);
    } else {
      assert a + b == b;
    }
  }

  /** The category select's handler: `'all'` shows every quiz, anything else only that category. */
  function FilterByCategory(quizzes: seq<Quiz>, selection: string): (r: seq<Quiz>)
    ensures selection == "all" ==> r == quizzes
    ensures selection != "all" ==> r == InCategory(quizzes, selection)
  {
    if selection == "all" then quizzes else InCategory(quizzes, selection)
  }
}
