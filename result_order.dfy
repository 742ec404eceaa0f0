/** The selections the server asks the `results` collection for: filters by
    user and by quiz, the two sort orders (newest first; best score first,
    quicker first among equal scores) and the leaderboard limit. The store's
    sort is given here as an insertion sort; its contract is only that the
    output is ordered and a permutation of the input, which is all that
    MongoDB promises (the order among ties is unspecified). */
module ResultOrder {
  import opened QuizTypes

  datatype Order =
    | NewestFirst   // `.sort({ completedAt: -1 })`
    | Ranking       // `.sort({ score: -1, timeTaken: 1 })`

  /** `a` may come before `b` in order `o`. */
  predicate Precedes(o: Order, a: ResultDoc, b: ResultDoc)
  {
    match o
    case NewestFirst => a.completedAt >= b.completedAt
    case Ranking => a.score > b.score || (a.score == b.score && a.timeTaken <= b.timeTaken)
  }

  lemma PrecedesTotal(o: Order, a: ResultDoc, b: ResultDoc)
    ensures Precedes(o, a, b) || Precedes(o, b, a)
  {
  }

  lemma PrecedesTransitive(o: Order, a: ResultDoc, b: ResultDoc, c: ResultDoc)
    requires Precedes(o, a, b) && Precedes(o, b, c)
    ensures Precedes(o, a, c)
  {
  }

  predicate SortedBy(o: Order, s: seq<ResultDoc>)
  {
    forall i, j :: 0 <= i < j < |s| ==> Precedes(o, s[i], s[j])
  }

  /** Puts `x` in front of the first element it may precede. */
  function Insert(o: Order, x: ResultDoc, s: seq<ResultDoc>): (r: seq<ResultDoc>)
    requires SortedBy(o, s)
    ensures SortedBy(o, r)
    ensures multiset(r) == multiset(s) + multiset{x}
  {
    if s == [] then [x]
    else if Precedes(o, x, s[0]) then
      InsertFront(o, x, s);
      [x] + s
    else
      var rest := Insert(o, x, s[1..]);
      InsertBehind(o, x, s, rest);
      [s[0]] + rest
  }

  lemma InsertFront(o: Order, x: ResultDoc, s: seq<ResultDoc>)
    requires SortedBy(o, s) && s != [] && Precedes(o, x, s[0])
    ensures SortedBy(o, [x] + s)
  {
    var r := [x] + s;
    forall i, j | 0 <= i < j < |r| ensures Precedes(o, r[i], r[j]) {
      if i == 0 {
        if j > 1 { PrecedesTransitive(o, x, s[0], s[j - 1]); }
      } else {
        assert r[i] == s[i - 1] && r[j] == s[j - 1];
      }
    }
  }

  lemma InsertBehind(o: Order, x: ResultDoc, s: seq<ResultDoc>, rest: seq<ResultDoc>)
    requires SortedBy(o, s) && s != [] && !Precedes(o, x, s[0])
    requires SortedBy(o, rest) && multiset(rest) == multiset(s[1..]) + multiset{x}
    ensures SortedBy(o, [s[0]] + rest)
    ensures multiset([s[0]] + rest) == multiset(s) + multiset{x}
  {
    PrecedesTotal(o, x, s[0]);
    assert s == [s[0]] + s[1..];
    var r := [s[0]] + rest;
    forall j | 0 <= j < |rest| ensures Precedes(o, s[0], rest[j]) {
      var y := rest[j];
      assert y in multiset(rest);
      if y != x {
        assert y in multiset(s[1..]);
        var k :| 0 <= k < |s[1..]| && s[1..][k] == y;
        assert s[k + 1] == y;
      }
    }
    forall i, j | 0 <= i < j < |r| ensures Precedes(o, r[i], r[j]) {
      if i == 0 { assert r[j] == rest[j - 1]; }
      else { assert r[i] == rest[i - 1] && r[j] == rest[j - 1]; }
    }
  }

  /** The store's sort: `s` put in order `o`. */
  function Sort(o: Order, s: seq<ResultDoc>): (r: seq<ResultDoc>)
    ensures SortedBy(o, r)
    ensures multiset(r) == multiset(s)
    ensures |r| == |s|
  {
    if s == [] then []
    else
      var r := Insert(o, s[0], Sort(o, s[1..]));
      assert s == [s[0]] + s[1..];
      assert |r| == |multiset(r)|;
      r
  }

  /** The filters the handlers pass to `.find`: `{ userId }` or `{ quizId }`. */
  datatype Filter = UserIs(userId: nat) | QuizIs(quizId: QuizRef)

  predicate Selects(f: Filter, x: ResultDoc)
  {
    match f
    case UserIs(u) => x.userId == u
    case QuizIs(q) => x.quizId == q
  }

  /** `.find(filter)`: the results the filter selects, in stored order. */
  function Find(rs: seq<ResultDoc>, f: Filter): (r: seq<ResultDoc>)
    ensures forall x :: x in r ==> Selects(f, x)
    ensures forall x :: multiset(r)[x] == if Selects(f, x) then multiset(rs)[x] else 0
  {
    if rs == [] then []
    else
      var rest := Find(rs[1..], f);
      assert rs == [rs[0]] + rs[1..];
      if Selects(f, rs[0]) then [rs[0]] + rest else rest
  }

  /** `.limit(n)`. */
  function Take(s: seq<ResultDoc>, n: nat): (r: seq<ResultDoc>)
    ensures |r| == if |s| < n then |s| else n
    ensures r == s[..|r|]
    ensures multiset(r) <= multiset(s)
  {
    if |s| < n then s
    else
      assert s == s[..n] + s[n..];
      s[..n]
  }

  /** The first `n` of `s` in order `o`: drawn from `s`, ordered, and
      outranking whatever they leave out. */
  function Top(o: Order, s: seq<ResultDoc>, n: nat): (r: seq<ResultDoc>)
    ensures |r| == if |s| < n then |s| else n
    ensures multiset(r) <= multiset(s)
    ensures forall x :: x in r ==> x in s
    ensures SortedBy(o, r)
    ensures forall y :: y in s && y !in r ==> forall x :: x in r ==> Precedes(o, x, y)
  {
    var ranked := Sort(o, s);
    var r := Take(ranked, n);
    assert forall x :: x in r ==> x in s by {
      forall x | x in r ensures x in s {
        assert x in ranked;
        assert x in multiset(ranked);
      }
    }
    assert forall y :: y in s && y !in r ==> forall x :: x in r ==> Precedes(o, x, y) by {
      forall y | y in s && y !in r ensures forall x :: x in r ==> Precedes(o, x, y) {
        assert y in multiset(s);
        assert y in multiset(ranked);
        PrefixPrecedesRest(o, ranked, n, y);
      }
    }
    r
  }

  /** In an ordered list, whatever a prefix leaves out is preceded by everything the prefix keeps. */
  lemma PrefixPrecedesRest(o: Order, s: seq<ResultDoc>, n: nat, y: ResultDoc)
    requires SortedBy(o, s)
    requires y in s && y !in Take(s, n)
    ensures forall x :: x in Take(s, n) ==> Precedes(o, x, y)
  {
    var t := Take(s, n);
    var j :| 0 <= j < |s| && s[j] == y;
    assert j >= |t|;
    forall x | x in t ensures Precedes(o, x, y) {
      var i :| 0 <= i < |t| && t[i] == x;
      assert s[i] == x;
    }
  }
}
