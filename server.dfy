/** The API handlers of server.js over an in-memory store. The three MongoDB
    collections are sequences inside a `Store` object; a document's id is its
    position in its sequence (no handler deletes anything). Password hashing
    and comparison are opaque functions passed in, and so is the clock. */
module Server {
  import opened Wrappers
  import opened QuizTypes
  import opened Scoring
  import opened ServerAuth
  import opened ResultOrder

  /** A document of the `users` collection. */
  datatype User = User(name: string, email: string, passwordHash: string, role: string, createdAt: int)

  /** The body of a successful submit reply. */
  datatype SubmitReply = SubmitReply(score: int, correctAnswers: nat, totalQuestions: nat, results: seq<IndexOutcome>)

  /** The body the quiz page posts for a trivia quiz; `score` is None when absent. */
  datatype ApiResultBody = ApiResultBody(
    quizTitle: string,
    score: Option<int>,
    correctAnswers: int,
    totalQuestions: int,
    timeTaken: int,
    results: seq<TextOutcome>)

  const FieldsRequired := HttpError(400, "All fields are required")
  const EmailRegistered := HttpError(400, "Email already registered")
  const CredentialsRequired := HttpError(400, "Email and password are required")
  const BadCredentials := HttpError(401, "Invalid email or password")
  const QuizFieldsRequired := HttpError(400, "Title and questions are required")
  const QuizNotFound := HttpError(404, "Quiz not found")
  const ServerError := HttpError(500, "Server error")
  const ApiFieldsRequired := HttpError(400, "Quiz title and score are required")

  /** The role every account is created with. */
  const UserRole := "user"
  /** The number of entries a leaderboard shows. */
  const LeaderboardSize: nat := 10

  /** `findOne({ email })`: the position of the first user with this email. */
  function FindUser(users: seq<User>, email: string): (r: Option<nat>)
    ensures r.Some? ==> r.value < |users| && users[r.value].email == email
    ensures r.Some? ==> forall i :: 0 <= i < r.value ==> users[i].email != email
    ensures r.None? <==> forall i :: 0 <= i < |users| ==> users[i].email != email
  {
    if users == [] then None
    else if users[0].email == email then Some(0)
    else match FindUser(users[1..], email)
      case None => None
      case Some(k) => Some(k + 1)
  }

  /** `description || ''`: a falsy description is stored as `''`, which is already how the model writes it. */
  function DefaultDescription(description: string): (d: string)
    ensures d == description
  {
    description
  }

  /** `category || 'General'`. */
  function DefaultCategory(category: string): (c: string)
    ensures c != ""
    ensures category == "" ==> c == "General"
    ensures category != "" ==> c == category
  {
    if category == "" then "General" else category
  }

  /** `timeLimit || 600`: both a missing value and 0 fall back to 600 seconds. */
  function DefaultTimeLimit(timeLimit: Option<int>): (t: int)
    ensures t != 0
    ensures timeLimit.Some? && timeLimit.value != 0 ==> t == timeLimit.value
    ensures timeLimit.None? || timeLimit == Some(0) ==> t == 600
  {
    match timeLimit
    case Some(v) => if v == 0 then 600 else v
    case None => 600
  }

  class Store {
    var users: seq<User>
    var quizzes: seq<Quiz>
    var results: seq<ResultDoc>

    /** The unique index on `email`, and that every stored quiz has questions
        (create-quiz refuses an empty list), so scoring never divides by zero. */
    ghost predicate Valid()
      reads this
    {
      (forall i, j :: 0 <= i < j < |users| ==> users[i].email != users[j].email) &&
      (forall q :: q in quizzes ==> |q.questions| > 0)
    }

    constructor ()
      ensures Valid()
      ensures users == [] && quizzes == [] && results == []
    {
      users, quizzes, results := [], [], [];
    }

    /** POST /api/auth/signup: reject a missing field, reject a known email,
        otherwise store the user with the hashed password and role `'user'`
        and return the claims put in the new token. */
    method Signup(name: string, email: string, password: string, hash: string -> string, now: int)
      returns (r: Result<Claims, HttpError>)
      requires Valid()
      modifies this
      ensures Valid()
      ensures quizzes == old(quizzes) && results == old(results)
      ensures name == "" || email == "" || password == "" ==>
        r == Failure(FieldsRequired) && users == old(users)
      ensures name != "" && email != "" && password != "" && FindUser(old(users), email).Some? ==>
        r == Failure(EmailRegistered) && users == old(users)
      ensures name != "" && email != "" && password != "" && FindUser(old(users), email).None? ==>
        users == old(users) + [User(name, email, hash(password), UserRole, now)] &&
        r == Success(Claims(|old(users)|, email, name, UserRole))
    {
      if name == "" || email == "" || password == "" {
        return Failure(FieldsRequired);
      }
      if FindUser(users, email).Some? {
        return Failure(EmailRegistered);
      }
      var id := |users|;
      users := users + [User(name, email, hash(password), UserRole, now)];
      r := Success(Claims(id, email, name, UserRole));
    }

    /** POST /api/auth/login. An unknown email and a wrong password give the same reply. */
    function Login(email: string, password: string, compare: (string, string) -> bool): (r: Result<Claims, HttpError>)
      reads this
      ensures email == "" || password == "" ==> r == Failure(CredentialsRequired)
      ensures email != "" && password != "" && r.Failure? ==> r == Failure(BadCredentials)
      ensures r.Success? <==>
        email != "" && password != "" &&
        (exists i :: 0 <= i < |users| && users[i].email == email &&
          compare(password, users[i].passwordHash) && FindUser(users, email) == Some(i))
      ensures r.Success? ==>
        var i := r.value.userId;
        i < |users| && users[i].email == email && compare(password, users[i].passwordHash) &&
        r.value == Claims(i, users[i].email, users[i].name, users[i].role)
    {
      if email == "" || password == "" then Failure(CredentialsRequired)
      else match FindUser(users, email)
        case None => Failure(BadCredentials)
        case Some(i) =>
          var u := users[i];
          if !compare(password, u.passwordHash) then Failure(BadCredentials)
          else Success(Claims(i, u.email, u.name, u.role))
    }

    /** The store keeps one account per email, so a login that succeeds names
        the one user holding that email. */
    lemma LoginNamesTheAccount(email: string, password: string, compare: (string, string) -> bool, i: nat)
      requires Valid()
      requires i < |users| && users[i].email == email
      requires Login(email, password, compare).Success?
      ensures Login(email, password, compare).value.userId == i
    {
    }

    /** GET /api/quizzes/:id. */
    function GetQuiz(quizId: nat): (r: Result<Quiz, HttpError>)
      reads this
      ensures r.Failure? <==> quizId >= |quizzes|
      ensures r.Failure? ==> r.error == QuizNotFound
      ensures r.Success? ==> r.value == quizzes[quizId]
    {
      if quizId < |quizzes| then Success(quizzes[quizId]) else Failure(QuizNotFound)
    }

    /** POST /api/quizzes: reject a request without title or questions,
        otherwise store it with the server's defaults, the creator's identity
        and a zero attempt counter, and return its id. */
    method CreateQuiz(user: Claims, req: CreateQuizRequest, now: int) returns (r: Result<nat, HttpError>)
      requires Valid()
      modifies this
      ensures Valid()
      ensures users == old(users) && results == old(results)
      ensures req.title == "" || |req.questions| == 0 ==>
        r == Failure(QuizFieldsRequired) && quizzes == old(quizzes)
      ensures req.title != "" && |req.questions| > 0 ==>
        r == Success(|old(quizzes)|) &&
        quizzes == old(quizzes) + [Quiz(req.title, DefaultDescription(req.description), DefaultCategory(req.category),
          DefaultTimeLimit(req.timeLimit), req.questions, user.userId, user.name, now, 0)]
    {
      if req.title == "" || |req.questions| == 0 {
        return Failure(QuizFieldsRequired);
      }
      var quiz := Quiz(req.title, DefaultDescription(req.description), DefaultCategory(req.category),
        DefaultTimeLimit(req.timeLimit), req.questions, user.userId, user.name, now, 0);
      r := Success(|quizzes|);
      quizzes := quizzes + [quiz];
    }

    /** POST /api/quizzes/:id/submit: 404 for an unknown quiz; a missing
        `answers` array makes the scoring throw, which the handler turns into
        500; otherwise score against the stored key, insert one result and
        add one to that quiz's attempt counter. */
    method SubmitQuiz(user: Claims, quizId: nat, answers: Option<seq<Option<int>>>, timeTaken: int, now: int)
      returns (r: Result<SubmitReply, HttpError>)
      requires Valid()
      modifies this
      ensures Valid()
      ensures users == old(users)
      ensures quizId >= |old(quizzes)| ==>
        r == Failure(QuizNotFound) && quizzes == old(quizzes) && results == old(results)
      ensures quizId < |old(quizzes)| && answers.None? ==>
        r == Failure(ServerError) && quizzes == old(quizzes) && results == old(results)
      ensures quizId < |old(quizzes)| && answers.Some? ==>
        var quiz := old(quizzes)[quizId];
        var key := quiz.questions;
        r.Success? &&
        r.value.correctAnswers == CorrectCount(answers.value, key) &&
        r.value.totalQuestions == |key| &&
        r.value.score == Percent(r.value.correctAnswers, |key|) &&
        0 <= r.value.score <= 100 &&
        |r.value.results| == |key| &&
        (forall i :: 0 <= i < |key| ==>
          r.value.results[i] == IndexOutcome(key[i].question, AnswerAt(answers.value, i), key[i].correctAnswer,
            Matches(answers.value, key, i))) &&
        results == old(results) + [ResultDoc(user.userId, user.name, StoredQuiz(quizId), quiz.title,
          r.value.score, r.value.correctAnswers, |key|, timeTaken, IndexOutcomes(r.value.results), now, false)] &&
        quizzes == old(quizzes)[quizId := quiz.(totalAttempts := quiz.totalAttempts + 1)]
    {
      if quizId >= |quizzes| {
        return Failure(QuizNotFound);
      }
      if answers.None? {
        return Failure(ServerError);
      }
      var quiz := quizzes[quizId];
      assert quiz in quizzes;
      var correct, outcomes, score := ScoreSubmission(quiz.questions, answers.value);
      results := results + [ResultDoc(user.userId, user.name, StoredQuiz(quizId), quiz.title,
        score, correct, |quiz.questions|, timeTaken, IndexOutcomes(outcomes), now, false)];
      quizzes := quizzes[quizId := quiz.(totalAttempts := quiz.totalAttempts + 1)];
      r := Success(SubmitReply(score, correct, |quiz.questions|, outcomes));
    }

    /** POST /api/results/save-api-quiz: reject a missing title or an absent
        score (a score of 0 is present), otherwise store the page's figures
        under the `'api-quiz'` sentinel. No quiz counter moves. */
    method SaveApiQuiz(user: Claims, body: ApiResultBody, now: int) returns (r: Result<int, HttpError>)
      requires Valid()
      modifies this
      ensures Valid()
      ensures users == old(users) && quizzes == old(quizzes)
      ensures body.quizTitle == "" || body.score.None? ==>
        r == Failure(ApiFieldsRequired) && results == old(results)
      ensures body.quizTitle != "" && body.score.Some? ==>
        r == Success(body.score.value) &&
        results == old(results) + [ResultDoc(user.userId, user.name, ApiQuizSentinel, body.quizTitle, body.score.value,
          body.correctAnswers, body.totalQuestions, body.timeTaken, TextOutcomes(body.results), now, true)]
    {
      if body.quizTitle == "" || body.score.None? {
        return Failure(ApiFieldsRequired);
      }
      results := results + [ResultDoc(user.userId, user.name, ApiQuizSentinel, body.quizTitle, body.score.value,
        body.correctAnswers, body.totalQuestions, body.timeTaken, TextOutcomes(body.results), now, true)];
      r := Success(body.score.value);
    }

    /** GET /api/results: exactly the caller's results, newest first. */
    function ListResults(user: Claims): (r: seq<ResultDoc>)
      reads this
      ensures SortedBy(NewestFirst, r)
      ensures forall x :: x in r ==> x.userId == user.userId
      ensures forall x :: multiset(r)[x] == if x.userId == user.userId then multiset(results)[x] else 0
    {
      var mine := Find(results, UserIs(user.userId));
      var r := Sort(NewestFirst, mine);
      forall x | x in r ensures x.userId == user.userId {
        assert x in multiset(r);
        assert x in mine;
      }
      r
    }

    /** GET /api/quizzes/:id/leaderboard: at most ten results of that quiz,
        best score first and quicker first among equal scores, and no result
        left out ranks above one that is shown. */
    function Leaderboard(quizId: nat): (r: seq<ResultDoc>)
      reads this
      ensures |r| <= LeaderboardSize
      ensures |r| == if |Find(results, QuizIs(StoredQuiz(quizId)))| < LeaderboardSize
                     then |Find(results, QuizIs(StoredQuiz(quizId)))| else LeaderboardSize
      ensures multiset(r) <= multiset(Find(results, QuizIs(StoredQuiz(quizId))))
      ensures forall x :: x in r ==> x.quizId == StoredQuiz(quizId) && x in results
      ensures SortedBy(Ranking, r)
      ensures forall y :: y in results && y.quizId == StoredQuiz(quizId) && y !in r ==>
        forall x :: x in r ==> Precedes(Ranking, x, y)
    {
      var mine := Find(results, QuizIs(StoredQuiz(quizId)));
      var r := Top(Ranking, mine, LeaderboardSize);
      assert forall x :: x in r ==> x.quizId == StoredQuiz(quizId) && x in results by {
        forall x | x in r ensures x.quizId == StoredQuiz(quizId) && x in results {
          assert x in multiset(mine);
        }
      }
      assert forall y :: y in results && y.quizId == StoredQuiz(quizId) ==> y in mine by {
        forall y | y in results && y.quizId == StoredQuiz(quizId) ensures y in mine {
          assert y in multiset(results);
        }
      }
      r
    }
  }
}
