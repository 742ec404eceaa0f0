/** The create-quiz page (public/create-quiz.js): a growing and shrinking
    list of question cards, each with a question field, option fields and a
    group of "correct answer" radio buttons, and the submit handler that
    validates the cards and builds the request for the server. The page's
    DOM is reduced to what the script reads from it. */
module QuizForm {
  import opened Wrappers
  import opened Text
  import opened QuizTypes

  /** One question card: its displayed number, the suffix of its radio
      group's name (`correct-${group}`), the field contents, and the value
      of the checked radio button, if any. */
  datatype Card = Card(number: int, group: int, questionText: string, optionTexts: seq<string>, checked: Option<int>)

  /** What the submit handler does: show an error and stop, or send a request. */
  datatype FormOutcome = Rejected(message: string) | Submit(request: CreateQuizRequest)

  const FillRequired := "Please fill in all required fields"
  const AddOneQuestion := "Please add at least one question"

  function CardMessage(index: nat, text: string): string
  {
    "Question " + NatToString(index + 1) + ": " + text
  }

  /** Each option field, trimmed. */
  function TrimAll(opts: seq<string>): (r: seq<string>)
    ensures |r| == |opts| && forall m :: 0 <= m < |opts| ==> r[m] == Trim(opts[m])
  {
    seq(|opts|, m requires 0 <= m < |opts| => Trim(opts[m]))
  }

  /** What the submit handler reads from one card: the trimmed question
      text, the trimmed option texts and the checked radio's value. */
  datatype Entry = Entry(questionText: string, optionTexts: seq<string>, checked: Option<int>)

  function ReadCard(card: Card): (e: Entry)
    ensures e.questionText == Trim(card.questionText) && e.optionTexts == TrimAll(card.optionTexts)
    ensures e.checked == card.checked
  {
    Entry(Trim(card.questionText), TrimAll(card.optionTexts), card.checked)
  }

  /** The entries of all cards, in document order. */
  function ReadCards(cards: seq<Card>): (es: seq<Entry>)
    ensures |es| == |cards|
  {
    if cards == [] then [] else ReadCards(cards[..|cards| - 1]) + [ReadCard(cards[|cards| - 1])]
  }

  /** Entry `i` is what the handler reads from card `i`. */
  lemma {:induction false} ReadCardsAt(cards: seq<Card>, i: nat)
    requires i < |cards|
    ensures ReadCards(cards)[i] == ReadCard(cards[i])
  {
    if i < |cards| - 1 {
      ReadCardsAt(cards[..|cards| - 1], i);
    }
  }

  predicate AllFilled(opts: seq<string>)
  {
    forall m :: 0 <= m < |opts| ==> opts[m] != ""
  }

  /** An entry the handler accepts. */
  predicate Passes(e: Entry)
  {
    e.questionText != "" && AllFilled(e.optionTexts) && e.checked.Some?
  }

  /** The checks on the entry of the card at `index`, in the handler's order; None when it passes. */
  function CardFailure(e: Entry, index: nat): (f: Option<string>)
    ensures f.None? <==> Passes(e)
  {
    if e.questionText == "" then Some(CardMessage(index, "Please enter question text"))
    else if !AllFilled(e.optionTexts) then Some(CardMessage(index, "Please fill in all options"))
    else if e.checked.None? then Some(CardMessage(index, "Please select the correct answer"))
    else None
  }

  /** `{ question, options, correctAnswer }` for an entry that passes. */
  function CardQuestion(e: Entry): (q: Question)
    requires e.checked.Some?
    ensures q.question == e.questionText && q.options == e.optionTexts && q.correctAnswer == e.checked.value
  {
    Question(e.questionText, e.optionTexts, e.checked.value)
  }

  /** The last failing entry among the first `k`: the one whose message is left on screen. */
  function LastFailure(es: seq<Entry>, k: nat): (j: Option<nat>)
    requires k <= |es|
    ensures j.Some? ==> j.value < k && !Passes(es[j.value])
  {
    if k == 0 then None
    else if !Passes(es[k - 1]) then Some(k - 1)
    else LastFailure(es, k - 1)
  }

  /** There is no failure exactly when every entry passes, and no entry after
      the last failure fails. */
  lemma {:induction false} LastFailureIsLast(es: seq<Entry>, k: nat)
    requires k <= |es|
    ensures LastFailure(es, k).None? <==> forall i :: 0 <= i < k ==> Passes(es[i])
    ensures LastFailure(es, k).Some? ==> forall i :: LastFailure(es, k).value < i < k ==> Passes(es[i])
  {
    if k > 0 && Passes(es[k - 1]) {
      LastFailureIsLast(es, k - 1);
    }
  }

  /** The message left on screen after the first `k` entries: the last failure's, if any. */
  function ErrorShown(es: seq<Entry>, k: nat): (m: Option<string>)
    requires k <= |es|
    ensures m.None? <==> LastFailure(es, k).None?
  {
    match LastFailure(es, k)
    case None => None
    case Some(j) => CardFailure(es[j], j)
  }

  /** The questions pushed for the passing entries among the first `k`, in card order. */
  function AcceptedUpTo(es: seq<Entry>, k: nat): (qs: seq<Question>)
    requires k <= |es|
    ensures |qs| <= k
  {
    if k == 0 then []
    else
      var before := AcceptedUpTo(es, k - 1);
      if Passes(es[k - 1]) then before + [CardQuestion(es[k - 1])] else before
  }

  /** With no failure among the first `k` entries, one question per entry, in card order. */
  lemma {:induction false} AcceptedAll(es: seq<Entry>, k: nat)
    requires k <= |es| && LastFailure(es, k).None?
    ensures var qs := AcceptedUpTo(es, k);
      |qs| == k && forall i :: 0 <= i < k ==> es[i].checked.Some? && qs[i] == CardQuestion(es[i])
  {
    if k > 0 {
      assert Passes(es[k - 1]);
      AcceptedAll(es, k - 1);
    }
  }

  /** One more entry: how the last failure and the accepted questions move on. */
  lemma CollectStep(es: seq<Entry>, i: nat)
    requires i < |es|
    ensures LastFailure(es, i + 1) == if Passes(es[i]) then LastFailure(es, i) else Some(i)
    ensures ErrorShown(es, i + 1) == if Passes(es[i]) then ErrorShown(es, i) else CardFailure(es[i], i)
    ensures AcceptedUpTo(es, i + 1) ==
      if Passes(es[i]) then AcceptedUpTo(es, i) + [CardQuestion(es[i])] else AcceptedUpTo(es, i)
  {
  }

  /** No two cards whose radio buttons share a name are both checked: a
      browser keeps at most one radio of a group checked. */
  predicate RadioExclusive(cards: seq<Card>)
  {
    forall i, j :: (0 <= i < |cards| && 0 <= j < |cards| && i != j && cards[i].group == cards[j].group &&
      cards[i].checked.Some?) ==> cards[j].checked.None?
  }

  predicate DistinctGroups(cards: seq<Card>)
  {
    forall i, j :: 0 <= i < j < |cards| ==> cards[i].group != cards[j].group
  }

  /** The largest radio-group suffix in use (0 for no cards). */
  function MaxGroup(cards: seq<Card>): (m: int)
    ensures forall i :: 0 <= i < |cards| ==> cards[i].group <= m
  {
    if cards == [] then 0
    else
      var rest := MaxGroup(cards[1..]);
      assert forall i :: 1 <= i < |cards| ==> cards[i] == cards[1..][i - 1];
      if cards[0].group > rest then cards[0].group else rest
  }

  /** Removing the card at `k` keeps the radio and group-name properties of the rest. */
  lemma RemovalKeepsGroups(before: seq<Card>, k: nat, after: seq<Card>)
    requires k < |before| && |after| == |before| - 1
    requires forall i :: 0 <= i < k ==> after[i].group == before[i].group && after[i].checked == before[i].checked
    requires forall i :: k <= i < |after| ==> after[i].group == before[i + 1].group && after[i].checked == before[i + 1].checked
    ensures RadioExclusive(before) ==> RadioExclusive(after)
    ensures DistinctGroups(before) ==> DistinctGroups(after)
  {
    if RadioExclusive(before) {
      forall i, j | 0 <= i < |after| && 0 <= j < |after| && i != j && after[i].group == after[j].group && after[i].checked.Some?
        ensures after[j].checked.None?
      {
        var bi := if i < k then i else i + 1;
        var bj := if j < k then j else j + 1;
        assert before[bi].group == before[bj].group && before[bi].checked.Some?;
      }
    }
    if DistinctGroups(before) {
      forall i, j | 0 <= i < j < |after| ensures after[i].group != after[j].group {
        var bi := if i < k then i else i + 1;
        var bj := if j < k then j else j + 1;
        assert bi < bj;
      }
    }
  }

  /** Cards whose radio buttons share a name cannot both have a correct
      answer chosen, so the handler always finds a failing card. */
  lemma SharedGroupBlocksSubmit(cards: seq<Card>, i: nat, j: nat)
    requires RadioExclusive(cards)
    requires i < |cards| && j < |cards| && i != j && cards[i].group == cards[j].group
    ensures LastFailure(ReadCards(cards), |cards|).Some?
  {
    var es := ReadCards(cards);
    LastFailureIsLast(es, |cards|);
    ReadCardsAt(cards, i);
    ReadCardsAt(cards, j);
    if cards[i].checked.Some? {
      assert !Passes(es[j]);
    } else {
      assert !Passes(es[i]);
    }
  }

  /** The `forEach` callback for the card at `index`: read and trim its
      fields, return at the first failed check, or give the question to push. */
  method CheckCard(cards: seq<Card>, index: nat) returns (failure: Option<string>, question: Question)
    requires index < |cards|
    ensures failure == CardFailure(ReadCards(cards)[index], index)
    ensures failure.None? ==> question == CardQuestion(ReadCards(cards)[index])
  {
    ReadCardsAt(cards, index);
    var card := cards[index];
    var questionText := Trim(card.questionText);
    var optionTexts := TrimAll(card.optionTexts);
    question := Question(questionText, optionTexts, 0);
    if questionText == "" {
      return Some(CardMessage(index, "Please enter question text")), question;
    }
    if exists m :: 0 <= m < |optionTexts| && optionTexts[m] == "" {
      return Some(CardMessage(index, "Please fill in all options")), question;
    }
    if card.checked.None? {
      return Some(CardMessage(index, "Please select the correct answer")), question;
    }
    failure, question := None, Question(questionText, optionTexts, card.checked.value);
  }

  /** `questionCards.forEach(...)`: every card is checked; a failing card
      overwrites the message, a passing one pushes its question. The
      handler's `hasError` is `formError.Some?`. */
  method CollectCards(cards: seq<Card>) returns (questions: seq<Question>, formError: Option<string>)
    ensures questions == AcceptedUpTo(ReadCards(cards), |cards|)
    ensures formError == ErrorShown(ReadCards(cards), |cards|)
  {
    ghost var es := ReadCards(cards);
    questions, formError := [], None;
    var i := 0;
    while i < |cards|
      invariant 0 <= i <= |cards|
      invariant questions == AcceptedUpTo(es, i)
      invariant formError == ErrorShown(es, i)
    {
      var failure, question := CheckCard(cards, i);
      CollectStep(es, i);
      if failure.Some? {
        formError := failure;
      } else {
        questions := questions + [question];
      }
      i := i + 1;
    }
  }

  /** A request the page sends has one question per card, in card order,
      each with the card's trimmed texts, none of them blank, and the
      checked value as its answer, so the server's own check (title and
      questions present) never rejects it. */
  lemma SubmittedRequestIsComplete(cards: seq<Card>)
    requires |cards| > 0 && LastFailure(ReadCards(cards), |cards|).None?
    ensures var qs := AcceptedUpTo(ReadCards(cards), |cards|);
      |qs| == |cards| > 0 &&
      forall i :: 0 <= i < |cards| ==>
        qs[i].question != "" && qs[i].question == Trim(cards[i].questionText) &&
        qs[i].options == TrimAll(cards[i].optionTexts) &&
        (forall m :: 0 <= m < |qs[i].options| ==> qs[i].options[m] != "") &&
        cards[i].checked == Some(qs[i].correctAnswer)
  {
    var es := ReadCards(cards);
    AcceptedAll(es, |cards|);
    LastFailureIsLast(es, |cards|);
    forall i | 0 <= i < |cards|
      ensures es[i] == ReadCard(cards[i])
    {
      ReadCardsAt(cards, i);
    }
  }

  class QuestionEditor {
    /** How many option fields the card template holds. */
    const optionSlots: nat
    /** `questionCount`. */
    var questionCount: int
    /** The cards in `questionsContainer`, in document order. */
    var cards: seq<Card>

    ghost predicate Valid()
      reads this
    {
      questionCount == |cards| &&
      (forall i :: 0 <= i < |cards| ==> cards[i].number == i + 1 && |cards[i].optionTexts| == optionSlots) &&
      RadioExclusive(cards)
    }

    function BlankCard(number: int, group: int): (c: Card)
      reads this
      ensures c.number == number && c.group == group && c.checked.None?
      ensures c.questionText == "" && |c.optionTexts| == optionSlots
      ensures forall m :: 0 <= m < optionSlots ==> c.optionTexts[m] == ""
    {
      Card(number, group, "", seq(optionSlots, _ => ""), None)
    }

    /** Page load: an empty container, then the first `addQuestion()`. */
    constructor (optionSlots: nat)
      ensures Valid() && DistinctGroups(cards)
      ensures this.optionSlots == optionSlots
      ensures questionCount == 1 && cards == [BlankCard(1, 1)]
    {
      this.optionSlots := optionSlots;
      questionCount := 1;
      cards := [Card(1, 1, "", seq(optionSlots, _ => ""), None)];
    }

    /** `addQuestion` as written: the counter goes up by one and names both
        the card's number and its radio group. */
    method AddQuestion()
      requires Valid()
      modifies this
      ensures Valid()
      ensures questionCount == old(questionCount) + 1
      ensures cards == old(cards) + [BlankCard(questionCount, questionCount)]
    {
      questionCount := questionCount + 1;
      cards := cards + [BlankCard(questionCount, questionCount)];
    }

    /** `addQuestion` with a radio-group name no card uses yet. */
    method AddQuestionFixed()
      requires Valid()
      modifies this
      ensures Valid()
      ensures questionCount == old(questionCount) + 1
      ensures cards == old(cards) + [BlankCard(questionCount, MaxGroup(old(cards)) + 1)]
      ensures DistinctGroups(old(cards)) ==> DistinctGroups(cards)
    {
      var group := MaxGroup(cards) + 1;
      questionCount := questionCount + 1;
      cards := cards + [BlankCard(questionCount, group)];
    }

    /** `updateQuestionNumbers`: the counter becomes the number of cards and
        the cards are numbered 1, 2, … in document order. */
    method UpdateQuestionNumbers()
      modifies this
      ensures questionCount == |cards| && |cards| == |old(cards)|
      ensures forall i :: 0 <= i < |cards| ==> cards[i] == old(cards)[i].(number := i + 1)
    {
      questionCount := |cards|;
      var i := 0;
      while i < |cards|
        invariant 0 <= i <= |cards| == |old(cards)|
        invariant questionCount == |cards|
        invariant forall k :: 0 <= k < i ==> cards[k] == old(cards)[k].(number := k + 1)
        invariant forall k :: i <= k < |cards| ==> cards[k] == old(cards)[k]
      {
        cards := cards[i := cards[i].(number := i + 1)];
        i := i + 1;
      }
    }

    /** The delete button of card `k`: remove it, then renumber. */
    method DeleteQuestion(k: nat)
      requires Valid() && k < |cards|
      modifies this
      ensures Valid()
      ensures questionCount == |cards| == |old(cards)| - 1
      ensures forall i :: 0 <= i < |cards| ==>
        cards[i] == (if i < k then old(cards)[i] else old(cards)[i + 1]).(number := i + 1)
      ensures DistinctGroups(old(cards)) ==> DistinctGroups(cards)
    {
      ghost var before := cards;
      cards := cards[..k] + cards[k + 1..];
      ghost var removed := cards;
      assert forall i :: 0 <= i < |removed| ==> removed[i] == if i < k then before[i] else before[i + 1];
      UpdateQuestionNumbers();
      RemovalKeepsGroups(before, k, cards);
    }

    /** What the user types into the question field of card `k`; create-quiz.js has
        no handler for it, the browser keeps the field's value until it is read. */
    method SetQuestionText(k: nat, text: string)
      requires Valid() && k < |cards|
      modifies this
      ensures Valid() && questionCount == old(questionCount)
      ensures cards == old(cards)[k := old(cards)[k].(questionText := text)]
      ensures DistinctGroups(old(cards)) ==> DistinctGroups(cards)
    {
      cards := cards[k := cards[k].(questionText := text)];
    }

    /** What the user types into option field `m` of card `k`; like the question
        field, it is the browser that keeps the value. */
    method SetOptionText(k: nat, m: nat, text: string)
      requires Valid() && k < |cards| && m < optionSlots
      modifies this
      ensures Valid() && questionCount == old(questionCount)
      ensures cards == old(cards)[k := old(cards)[k].(optionTexts := old(cards)[k].optionTexts[m := text])]
      ensures DistinctGroups(old(cards)) ==> DistinctGroups(cards)
    {
      cards := cards[k := cards[k].(optionTexts := cards[k].optionTexts[m := text])];
    }

    /** Clicking the radio button with value `value` on card `k`: it becomes
        checked, and every other radio of the same name is unchecked. With
        distinct names no other card is touched. */
    method SelectCorrect(k: nat, value: int)
      requires Valid() && k < |cards|
      modifies this
      ensures Valid() && questionCount == old(questionCount) && |cards| == |old(cards)|
      ensures cards[k] == old(cards)[k].(checked := Some(value))
      ensures forall i :: 0 <= i < |cards| && i != k ==>
        cards[i] == if old(cards)[i].group == old(cards)[k].group then old(cards)[i].(checked := None) else old(cards)[i]
      ensures DistinctGroups(old(cards)) ==> DistinctGroups(cards) && forall i :: 0 <= i < |cards| && i != k ==> cards[i] == old(cards)[i]
    {
      var g := cards[k].group;
      cards := seq(|cards|, i requires 0 <= i < |cards| reads this =>
        if i == k then cards[i].(checked := Some(value))
        else if cards[i].group == g then cards[i].(checked := None)
        else cards[i]);
    }

    /** The submit handler: the required fields, then at least one card,
        then every card in turn, the message of each failing card
        overwriting the previous one; only when no card failed is the
        request built. */
    method CollectQuestions(title: string, description: string, category: string, timeLimit: Option<int>)
      returns (r: FormOutcome)
      ensures title == "" || category == "" ==> r == Rejected(FillRequired)
      ensures title != "" && category != "" && |cards| == 0 ==> r == Rejected(AddOneQuestion)
      ensures title != "" && category != "" && |cards| > 0 && LastFailure(ReadCards(cards), |cards|).Some? ==>
        r == Rejected(ErrorShown(ReadCards(cards), |cards|).value)
      ensures title != "" && category != "" && |cards| > 0 && LastFailure(ReadCards(cards), |cards|).None? ==>
        r == Submit(CreateQuizRequest(title, description, category, timeLimit, AcceptedUpTo(ReadCards(cards), |cards|)))
    {
      if title == "" || category == "" {
        return Rejected(FillRequired);
      }
      if |cards| == 0 {
        return Rejected(AddOneQuestion);
      }
      var questions, formError := CollectCards(cards);
      if formError.Some? {
        return Rejected(formError.value);
      }
      r := Submit(CreateQuizRequest(title, description, category, timeLimit, questions));
    }
  }

  /** Page load, "Add question", delete the first card, "Add question":
      the two remaining cards both get radio group `correct-2`. */
  method GroupCollisionWitness() returns (e: QuestionEditor)
    ensures e.Valid() && |e.cards| == 2
    ensures e.cards[0].group == e.cards[1].group == 2
    ensures e.cards[0].number == 1 && e.cards[1].number == 2
  {
    e := new QuestionEditor(4);
    e.AddQuestion();
    assert e.cards[1].group == 2;
    e.DeleteQuestion(0);
    assert e.cards[0].group == 2 && e.questionCount == 1;
    e.AddQuestion();
  }

  /** With the fixed `addQuestion` the same clicks keep the groups apart. */
  method GroupsApartWitness() returns (e: QuestionEditor)
    ensures e.Valid() && |e.cards| == 2 && DistinctGroups(e.cards)
  {
    e := new QuestionEditor(4);
    e.AddQuestionFixed();
    e.DeleteQuestion(0);
    e.AddQuestionFixed();
  }
}
