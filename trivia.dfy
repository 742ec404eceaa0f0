/** The trivia adapter of the dashboard (public/dashboard.js): the Open
    Trivia DB request URL, the category names, and the conversion of a
    response into a quiz the quiz page can run, with each question's options
    shuffled by Fisher–Yates and the right answer found again by `indexOf`.
    The random draws of the shuffle are an input; HTML-entity decoding is an
    opaque function. */
module Trivia {
  import opened Wrappers
  import opened Text
  import opened QuizTypes
  import opened Scoring

  // ------------------------------------------------------------ request URL

  const Endpoint := "https://opentdb.com/api.php"
  /** The select value that means "no restriction". */
  const AnySetting := "any"

  /** The URL the start button fetches. */
  function TriviaUrl(amount: nat, category: string, difficulty: string): (url: string)
    ensures StartsWith(url, Endpoint + "?" + "amount=" + NatToString(amount) + "&" + "type=multiple")
  {
    var base := Endpoint + "?" + "amount=" + NatToString(amount) + "&" + "type=multiple";
    var withCategory := if category != AnySetting then base + "&" + "category=" + category else base;
    var url := if difficulty != AnySetting then withCategory + "&" + "difficulty=" + difficulty else withCategory;
    assert url[..|base|] == base;
    url
  }

  /** The query parameters that URL carries, in order. */
  function QueryParams(amount: nat, category: string, difficulty: string): seq<string>
  {
    ["amount=" + NatToString(amount), "type=multiple"] +
    (if category != AnySetting then ["category=" + category] else []) +
    (if difficulty != AnySetting then ["difficulty=" + difficulty] else [])
  }

  /** `ps.join('&')`. */
  function JoinAmp(ps: seq<string>): string
    requires |ps| > 0
  {
    if |ps| == 1 then ps[0] else ps[0] + "&" + JoinAmp(ps[1..])
  }

  lemma {:induction false} SplitJoinAmp(ps: seq<string>)
    requires |ps| > 0 && forall k :: 0 <= k < |ps| ==> '&' !in ps[k]
    ensures Split(JoinAmp(ps), '&') == ps
  {
    if |ps| == 1 {
      SplitNone(ps[0], '&');
    } else {
      SplitJoinAmp(ps[1..]);
      SplitJoin(ps[0], '&', JoinAmp(ps[1..]));
      assert ps[0] + "&" + JoinAmp(ps[1..]) == ps[0] + ['&'] + JoinAmp(ps[1..]);
      assert ps == [ps[0]] + ps[1..];
    }
  }

  lemma JoinAmpTwo(a: string, b: string)
    ensures JoinAmp([a, b]) == a + "&" + b
  {
    assert [a, b][1..] == [b];
  }

  lemma JoinAmpThree(a: string, b: string, c: string)
    ensures JoinAmp([a, b, c]) == a + "&" + b + "&" + c
  {
    assert [a, b, c][1..] == [b, c];
    JoinAmpTwo(b, c);
  }

  lemma JoinAmpFour(a: string, b: string, c: string, d: string)
    ensures JoinAmp([a, b, c, d]) == a + "&" + b + "&" + c + "&" + d
  {
    assert [a, b, c, d][1..] == [b, c, d];
    JoinAmpThree(b, c, d);
  }

  lemma ConcatShift(p: string, x: string, y: string)
    ensures p + x + y == p + (x + y)
  {
  }

  /** The URL is the endpoint, `?`, and the parameters joined by `&`. */
  lemma UrlIsJoin(amount: nat, category: string, difficulty: string)
    ensures TriviaUrl(amount, category, difficulty) == Endpoint + "?" + JoinAmp(QueryParams(amount, category, difficulty))
  {
    var ps := QueryParams(amount, category, difficulty);
    var p := Endpoint + "?";
    var a, t := "amount=" + NatToString(amount), "type=multiple";
    var c, d := "category=" + category, "difficulty=" + difficulty;
    var base := p + "amount=" + NatToString(amount) + "&" + "type=multiple";
    ConcatShift(p, "amount=", NatToString(amount));
    assert base == p + (a + "&" + t);
    var withCategory := if category != AnySetting then base + "&" + "category=" + category else base;
    var q1 := if category != AnySetting then a + "&" + t + "&" + c else a + "&" + t;
    assert withCategory == p + q1 by {
      if category != AnySetting {
        ConcatShift(base + "&", "category=", category);
        ConcatShift(p, a + "&" + t, "&");
        ConcatShift(p, a + "&" + t + "&", c);
      }
    }
    var q2 := if difficulty != AnySetting then q1 + "&" + d else q1;
    assert TriviaUrl(amount, category, difficulty) == p + q2 by {
      if difficulty != AnySetting {
        ConcatShift(withCategory + "&", "difficulty=", difficulty);
        ConcatShift(p, q1, "&");
        ConcatShift(p, q1 + "&", d);
      }
    }
    if category != AnySetting && difficulty != AnySetting {
      assert ps == [a, t, c, d];
      JoinAmpFour(a, t, c, d);
    } else if category != AnySetting {
      assert ps == [a, t, c];
      JoinAmpThree(a, t, c);
    } else if difficulty != AnySetting {
      assert ps == [a, t, d];
      JoinAmpThree(a, t, d);
    } else {
      assert ps == [a, t];
      JoinAmpTwo(a, t);
    }
  }

  /** Cutting the query string at `&` gives back exactly the parameters. */
  lemma UrlCarriesParams(amount: nat, category: string, difficulty: string)
    requires '&' !in category && '&' !in difficulty
    ensures var url := TriviaUrl(amount, category, difficulty);
      |url| > |Endpoint| + 1 && url[..|Endpoint| + 1] == Endpoint + "?" &&
      Split(url[|Endpoint| + 1..], '&') == QueryParams(amount, category, difficulty)
  {
    var url := TriviaUrl(amount, category, difficulty);
    var ps := QueryParams(amount, category, difficulty);
    UrlIsJoin(amount, category, difficulty);
    assert url[|Endpoint| + 1..] == JoinAmp(ps);
    forall k | 0 <= k < |ps| ensures '&' !in ps[k] {
      assert '&' !in NatToString(amount);
    }
    SplitJoinAmp(ps);
  }

  /** A parameter naming a category is present exactly when the select is not `'any'`;
      likewise for the difficulty. `amount` and `type=multiple` are always there. */
  lemma ParamPresence(amount: nat, category: string, difficulty: string)
    ensures var ps := QueryParams(amount, category, difficulty);
      ps[0] == "amount=" + NatToString(amount) && ps[1] == "type=multiple" &&
      ((exists k :: 0 <= k < |ps| && StartsWith(ps[k], "category=")) <==> category != AnySetting) &&
      ((exists k :: 0 <= k < |ps| && StartsWith(ps[k], "difficulty=")) <==> difficulty != AnySetting)
  {
    var ps := QueryParams(amount, category, difficulty);
    var c, d := "category=" + category, "difficulty=" + difficulty;
    assert StartsWith(c, "category=") by { assert c[..9] == "category="; }
    assert StartsWith(d, "difficulty=") by { assert d[..11] == "difficulty="; }
    forall k | 0 <= k < |ps| && StartsWith(ps[k], "category=") ensures category != AnySetting {
      assert ps[k][0] == 'c';
    }
    forall k | 0 <= k < |ps| && StartsWith(ps[k], "difficulty=") ensures difficulty != AnySetting {
      assert ps[k][0] == 'd';
    }
    if category != AnySetting { assert ps[2] == c; }
    if difficulty != AnySetting { assert ps[|ps| - 1] == d; }
  }

  // --------------------------------------------------------- category names

  const GeneralKnowledge := "General Knowledge"

  /** `getCategoryName`'s table. */
  const Categories: map<string, string> := map[
    "any" := GeneralKnowledge, "9" := GeneralKnowledge, "10" := "Books", "11" := "Film",
    "12" := "Music", "14" := "Television", "15" := "Video Games", "17" := "Science & Nature",
    "18" := "Computers", "19" := "Mathematics", "20" := "Mythology", "21" := "Sports",
    "22" := "Geography", "23" := "History", "27" := "Animals"]

  /** `categories[categoryId] || 'General Knowledge'`: total, and always a name from the table. */
  function CategoryName(id: string): (name: string)
    ensures name in Categories.Values
    ensures id in Categories ==> name == Categories[id]
    ensures id !in Categories ==> name == GeneralKnowledge
  {
    assert Categories["any"] == GeneralKnowledge;
    if id in Categories then Categories[id] else GeneralKnowledge
  }

  lemma CategoryNameExamples()
    ensures CategoryName("any") == GeneralKnowledge
    ensures CategoryName("18") == "Computers"
    ensures CategoryName("13") == GeneralKnowledge
  {
    assert "13" !in Categories;
  }

  /** `${amount} questions - ${…} difficulty`: the count, then "Mixed" for any
      difficulty or the difficulty with its first letter upper-cased, then the
      word "difficulty". */
  function Description(amount: nat, difficulty: string): (d: string)
    ensures StartsWith(d, NatToString(amount) + " questions - ")
    ensures var p := |NatToString(amount) + " questions - "|;
      var w := if difficulty == AnySetting then "Mixed" else Capitalize(difficulty);
      |d| == p + |w| + |" difficulty"| && d[p..p + |w|] == w && d[p + |w|..] == " difficulty"
  {
    var prefix := NatToString(amount) + " questions - ";
    var word := if difficulty == AnySetting then "Mixed" else Capitalize(difficulty);
    var d := prefix + word + " difficulty";
    assert d[..|prefix|] == prefix;
    assert d[|prefix|..|prefix| + |word|] == word;
    d
  }

  // ---------------------------------------------------------------- shuffle

  /** The random draws: step `k` of the loop (position `n-1-k`) swaps with `js[k]`, which lies in `[0, n-1-k]`. */
  predicate ValidChoices(n: nat, js: seq<int>)
  {
    |js| == (if n == 0 then 0 else n - 1) &&
    forall k :: 0 <= k < |js| ==> 0 <= js[k] <= n - 1 - k
  }

  /** `[s[i], s[j]] = [s[j], s[i]]`. */
  function SwapAt<T>(s: seq<T>, i: nat, j: nat): (r: seq<T>)
    requires i < |s| && j < |s|
    ensures |r| == |s| && r[i] == s[j] && r[j] == s[i]
    ensures forall k :: 0 <= k < |s| && k != i && k != j ==> r[k] == s[k]
  {
    s[i := s[j]][j := s[i]]
  }

  lemma SwapPermutes<T>(s: seq<T>, i: nat, j: nat)
    requires i < |s| && j < |s|
    ensures multiset(SwapAt(s, i, j)) == multiset(s)
  {
    var t := s[i := s[j]];
    assert multiset(t) == multiset(s) - multiset{s[i]} + multiset{s[j]};
    assert multiset(t[j := s[i]]) == multiset(t) - multiset{t[j]} + multiset{s[i]};
  }

  /** The loop's remaining steps, for positions `i` down to 1. */
  function ShuffledFrom<T>(s: seq<T>, js: seq<int>, i: nat): seq<T>
    requires ValidChoices(|s|, js) && (if |s| == 0 then i == 0 else i < |s|)
    decreases i
  {
    if i == 0 then s
    else ShuffledFrom(SwapAt(s, i, js[|s| - 1 - i]), js, i - 1)
  }

  /** The whole Fisher–Yates loop over `s` with draws `js`. */
  function Shuffled<T>(s: seq<T>, js: seq<int>): seq<T>
    requires ValidChoices(|s|, js)
  {
    if |s| == 0 then s else ShuffledFrom(s, js, |s| - 1)
  }

  lemma {:induction false} ShuffledFromPermutes<T>(s: seq<T>, js: seq<int>, i: nat)
    requires ValidChoices(|s|, js) && (if |s| == 0 then i == 0 else i < |s|)
    ensures |ShuffledFrom(s, js, i)| == |s|
    ensures multiset(ShuffledFrom(s, js, i)) == multiset(s)
    decreases i
  {
    if i > 0 {
      var t := SwapAt(s, i, js[|s| - 1 - i]);
      SwapPermutes(s, i, js[|s| - 1 - i]);
      ShuffledFromPermutes(t, js, i - 1);
    }
  }

  /** Whatever the draws, the shuffle only rearranges. */
  lemma ShuffledPermutes<T>(s: seq<T>, js: seq<int>)
    requires ValidChoices(|s|, js)
    ensures |Shuffled(s, js)| == |s|
    ensures multiset(Shuffled(s, js)) == multiset(s)
  {
    if |s| > 0 { ShuffledFromPermutes(s, js, |s| - 1); }
  }

  /** The loop of the start handler, in place on `allOptions`. */
  method Shuffle(a: array<string>, js: seq<int>)
    requires ValidChoices(a.Length, js)
    modifies a
    ensures a[..] == Shuffled(old(a[..]), js)
  {
    if a.Length == 0 { return; }
    var i := a.Length - 1;
    while i > 0
      invariant 0 <= i < a.Length
      invariant ShuffledFrom(a[..], js, i) == Shuffled(old(a[..]), js)
      decreases i
    {
      var j := js[a.Length - 1 - i];
      ghost var before := a[..];
      a[i], a[j] := a[j], a[i];
      assert a[..] == SwapAt(before, i, j);
      i := i - 1;
    }
  }

  /** Where one swap sends the element at position `p`. */
  function Swapped(p: nat, i: nat, j: nat): nat
  {
    if p == i then j else if p == j then i else p
  }

  /** Where the remaining steps send the element that starts at position `p`. */
  function TrackFrom(n: nat, js: seq<int>, i: nat, p: nat): nat
    requires ValidChoices(n, js) && (if n == 0 then i == 0 else i < n)
    decreases i
  {
    if i == 0 then p
    else TrackFrom(n, js, i - 1, Swapped(p, i, js[n - 1 - i] as nat))
  }

  /** Where the whole loop sends the element at position `p`. */
  function Track(n: nat, js: seq<int>, p: nat): nat
    requires ValidChoices(n, js)
  {
    if n == 0 then p else TrackFrom(n, js, n - 1, p)
  }

  lemma {:induction false} TrackFromFollows<T>(s: seq<T>, js: seq<int>, i: nat, p: nat)
    requires ValidChoices(|s|, js) && (if |s| == 0 then i == 0 else i < |s|) && p < |s|
    ensures TrackFrom(|s|, js, i, p) < |s|
    ensures |ShuffledFrom(s, js, i)| == |s|
    ensures ShuffledFrom(s, js, i)[TrackFrom(|s|, js, i, p)] == s[p]
    decreases i
  {
    ShuffledFromPermutes(s, js, i);
    if i > 0 {
      var j := js[|s| - 1 - i];
      TrackFromFollows(SwapAt(s, i, j), js, i - 1, Swapped(p, i, j));
    }
  }

  /** The tracked position holds the element that started at `p`. */
  lemma TrackFollows<T>(s: seq<T>, js: seq<int>, p: nat)
    requires ValidChoices(|s|, js) && p < |s|
    ensures Track(|s|, js, p) < |Shuffled(s, js)|
    ensures Shuffled(s, js)[Track(|s|, js, p)] == s[p]
  {
    TrackFromFollows(s, js, |s| - 1, p);
  }

  lemma TwoOccurrences<T>(s: seq<T>, i: nat, j: nat)
    requires i < j < |s| && s[i] == s[j]
    ensures multiset(s)[s[i]] >= 2
  {
    assert s == s[..j] + s[j..];
    assert s[..j][i] == s[i];
    assert s[j..][0] == s[j];
  }

  /** With distinct texts, `indexOf` finds the correct option where the shuffle put it. */
  lemma IndexOfFindsTracked(s: seq<string>, js: seq<int>)
    requires ValidChoices(|s|, js) && |s| > 0 && s[0] !in s[1..]
    ensures IndexOf(Shuffled(s, js), s[0]) == Track(|s|, js, 0)
  {
    var t := Shuffled(s, js);
    var k := Track(|s|, js, 0);
    TrackFollows(s, js, 0);
    ShuffledPermutes(s, js);
    assert s == [s[0]] + s[1..];
    assert multiset(s)[s[0]] == 1;
    var idx := IndexOf(t, s[0]);
    if idx < k {
      TwoOccurrences(t, idx, k);
    }
  }

  /** With a repeated text it need not: here the correct option (position 0)
      ends at position 1, yet `indexOf` answers 0, an equal-text copy. */
  lemma DuplicateTextExample()
    ensures var s, js := ["A", "A", "B", "C"], [3, 2, 0];
      ValidChoices(|s|, js) && Shuffled(s, js) == s &&
      Track(|s|, js, 0) == 1 && IndexOf(Shuffled(s, js), "A") == 0
  {
    var s, js := ["A", "A", "B", "C"], [3, 2, 0];
    assert ValidChoices(|s|, js);
    assert SwapAt(s, 3, 3) == s;
    assert SwapAt(s, 2, 2) == s;
    assert SwapAt(s, 1, 0) == s;
    assert ShuffledFrom(s, js, 1) == s;
    assert ShuffledFrom(s, js, 2) == s;
  }

  // ------------------------------------------------------- response to quiz

  /** One entry of the Open Trivia DB `results` array. */
  datatype TriviaQuestion = TriviaQuestion(question: string, correctAnswer: string, incorrectAnswers: seq<string>)

  datatype TriviaResponse = TriviaResponse(responseCode: int, results: seq<TriviaQuestion>)

  /** The quiz the dashboard hands to the quiz page. */
  datatype ApiQuiz = ApiQuiz(
    title: string,
    description: string,
    category: string,
    timeLimit: int,
    questions: seq<Question>,
    isApiQuiz: bool)

  const FetchFailed := "Failed to fetch quiz questions. Try different settings."

  /** `[correctAnswerText, ...q.incorrect_answers.map(decodeHTML)]`. */
  function DecodedOptions(q: TriviaQuestion, decode: string -> string): (opts: seq<string>)
    ensures |opts| == 1 + |q.incorrectAnswers|
    ensures opts[0] == decode(q.correctAnswer)
    ensures forall k :: 0 <= k < |q.incorrectAnswers| ==> opts[k + 1] == decode(q.incorrectAnswers[k])
  {
    [decode(q.correctAnswer)] + seq(|q.incorrectAnswers|, k requires 0 <= k < |q.incorrectAnswers| => decode(q.incorrectAnswers[k]))
  }

  /** What the callback of `data.results.map` makes of `q` under the draws `js`:
      the decoded question, the shuffled decoded options, and the index of the
      correct text among them. */
  function Formatted(q: TriviaQuestion, decode: string -> string, js: seq<int>): (fq: Question)
    requires ValidChoices(1 + |q.incorrectAnswers|, js)
    ensures fq.question == decode(q.question)
    ensures fq.options == Shuffled(DecodedOptions(q, decode), js)
  {
    var options := Shuffled(DecodedOptions(q, decode), js);
    Question(decode(q.question), options, IndexOf(options, decode(q.correctAnswer)))
  }

  /** The options are a permutation of the decoded texts, and the key is in
      range, names the correct text, is its first occurrence, and is where the
      shuffle moved the correct text whenever that text occurs once. */
  lemma FormattedKey(q: TriviaQuestion, decode: string -> string, js: seq<int>)
    requires ValidChoices(1 + |q.incorrectAnswers|, js)
    ensures multiset(Formatted(q, decode, js).options) == multiset(DecodedOptions(q, decode))
    ensures 0 <= Formatted(q, decode, js).correctAnswer < |Formatted(q, decode, js).options|
    ensures Formatted(q, decode, js).options[Formatted(q, decode, js).correctAnswer] == decode(q.correctAnswer)
    ensures forall i :: 0 <= i < Formatted(q, decode, js).correctAnswer ==>
      Formatted(q, decode, js).options[i] != decode(q.correctAnswer)
    ensures decode(q.correctAnswer) !in DecodedOptions(q, decode)[1..] ==>
      Formatted(q, decode, js).correctAnswer == Track(1 + |q.incorrectAnswers|, js, 0)
  {
    var all := DecodedOptions(q, decode);
    var options := Shuffled(all, js);
    ShuffledPermutes(all, js);
    assert all[0] in multiset(options);
    if decode(q.correctAnswer) !in all[1..] {
      IndexOfFindsTracked(all, js);
    }
  }

  /** The callback of `data.results.map`: decode, shuffle, and find the correct text again.
      Where the shuffle puts a correct text that occurs once is `FormattedKey`'s last clause. */
  method FormatQuestion(q: TriviaQuestion, decode: string -> string, js: seq<int>) returns (fq: Question)
    requires ValidChoices(1 + |q.incorrectAnswers|, js)
    ensures fq == Formatted(q, decode, js)
    ensures multiset(fq.options) == multiset(DecodedOptions(q, decode))
    ensures 0 <= fq.correctAnswer < |fq.options|
    ensures fq.options[fq.correctAnswer] == decode(q.correctAnswer)
    ensures forall i :: 0 <= i < fq.correctAnswer ==> fq.options[i] != decode(q.correctAnswer)
  {
    var correctText := decode(q.correctAnswer);
    var all := DecodedOptions(q, decode);
    var allOptions := new string[|all|](k requires 0 <= k < |all| => all[k]);
    assert allOptions[..] == all;
    Shuffle(allOptions, js);
    var options := allOptions[..];
    fq := Question(decode(q.question), options, IndexOf(options, correctText));
    FormattedKey(q, decode, js);
  }

  /** `data.results.map(...)`: one formatted question per trivia question, in order. */
  method FormatAll(results: seq<TriviaQuestion>, decode: string -> string, draws: seq<seq<int>>)
    returns (questions: seq<Question>)
    requires |draws| == |results|
    requires forall k :: 0 <= k < |draws| ==> ValidChoices(1 + |results[k].incorrectAnswers|, draws[k])
    ensures |questions| == |results|
    ensures KeyInRange(questions)
    ensures forall k :: 0 <= k < |results| ==> questions[k] == Formatted(results[k], decode, draws[k])
  {
    questions := [];
    var k := 0;
    while k < |results|
      invariant 0 <= k <= |results|
      invariant |questions| == k
      invariant KeyInRange(questions)
      invariant forall m :: 0 <= m < k ==> questions[m] == Formatted(results[m], decode, draws[m])
    {
      var fq := FormatQuestion(results[k], decode, draws[k]);
      var next := questions + [fq];
      assert forall m :: 0 <= m < k ==> next[m] == questions[m];
      questions := next;
      k := k + 1;
    }
  }

  /** The start handler after the fetch: reject a non-zero `response_code`,
      otherwise build the quiz, one minute per question. */
  method BuildApiQuiz(data: TriviaResponse, amount: nat, category: string, difficulty: string,
                      decode: string -> string, draws: seq<seq<int>>)
    returns (r: Result<ApiQuiz, string>)
    requires |draws| == |data.results|
    requires forall k :: 0 <= k < |draws| ==> ValidChoices(1 + |data.results[k].incorrectAnswers|, draws[k])
    ensures r.Failure? <==> data.responseCode != 0
    ensures r.Failure? ==> r.error == FetchFailed
    ensures r.Success? ==>
      var quiz := r.value;
      quiz.title == CategoryName(category) + " Quiz" &&
      quiz.description == Description(amount, difficulty) &&
      quiz.category == CategoryName(category) &&
      quiz.timeLimit == amount * 60 &&
      quiz.isApiQuiz &&
      |quiz.questions| == |data.results| &&
      KeyInRange(quiz.questions) &&
      forall k :: 0 <= k < |data.results| ==> quiz.questions[k] == Formatted(data.results[k], decode, draws[k])
  {
    if data.responseCode != 0 {
      return Failure(FetchFailed);
    }
    var questions := FormatAll(data.results, decode, draws);
    r := Success(ApiQuiz(CategoryName(category) + " Quiz", Description(amount, difficulty), CategoryName(category),
      amount * 60, questions, true));
  }
}
