/**
 * The Streamlit front end of frontend/app.py: the quiz session kept in
 * `st.session_state`, the page it renders from that state, the blank check
 * of the add-card form, and the counts of the progress page.
 */
module Quiz {
  import opened Options
  import opened Text
  import Logic

  /** The two fields of a fetched flashcard the quiz reads. */
  datatype Card = Card(question: string, answer: string)

  /** The outcome of the one `GET /flashcards` made when the session starts. */
  datatype Fetch = Response(status: int, cards: seq<Card>) | ConnectionError

  /** The card list a new session starts with: the response body on status 200, otherwise no cards. */
  function LoadedCards(fetch: Fetch): (cards: seq<Card>)
    ensures fetch.Response? && fetch.status == 200 ==> cards == fetch.cards
    ensures !(fetch.Response? && fetch.status == 200) ==> cards == []
  {
    if fetch.Response? && fetch.status == 200 then fetch.cards else []
  }

  /** The message shown under a question after Submit. */
  datatype Feedback = Correct | Wrong(correctAnswer: string)

  /** What the Quiz page shows. */
  datatype Screen =
    | NoCards
    | Question(number: int, total: int, text: string, feedback: Option<Feedback>)
    | Completed(score: int, answered: int)

  /** The quiz counters of `st.session_state`, persisting across reruns of the script. */
  class QuizSession {
    var cards: seq<Card>
    var currentIndex: int
    var score: int
    var answered: int
    var showResult: bool
    /** `last_correct`, which is absent until the first Submit. */
    var lastCorrect: Option<bool>

    /** The invariant every transition keeps. */
    predicate Valid()
      reads this
    {
      0 <= score <= answered && 0 <= currentIndex <= |cards| && (showResult ==> lastCorrect.Some?)
    }

    /** A question is on screen, with its Submit and Next buttons. */
    predicate InProgress()
      reads this
    {
      0 <= currentIndex < |cards|
    }

    /** The "Quiz Completed!" screen, with its Restart button. */
    predicate IsCompleted()
      reads this
    {
      cards != [] && currentIndex >= |cards|
    }

    /** The first run of the script: every counter missing from the session state is set. */
    constructor Start(fetch: Fetch)
      ensures Valid()
      ensures cards == LoadedCards(fetch)
      ensures currentIndex == 0 && score == 0 && answered == 0 && !showResult && lastCorrect == None
    {
      cards := LoadedCards(fetch);
      currentIndex := 0;
      score := 0;
      answered := 0;
      showResult := false;
      lastCorrect := None;
    }

    /** The Submit button: one more answer, and one more point if it matches the card's answer. */
    method Submit(userAnswer: string)
      requires Valid() && InProgress()
      modifies this
      ensures Valid() && InProgress()
      ensures answered == old(answered) + 1
      ensures lastCorrect == Some(AnswerMatches(userAnswer, cards[currentIndex].answer))
      ensures score == old(score) + if AnswerMatches(userAnswer, cards[currentIndex].answer) then 1 else 0
      ensures showResult
      ensures cards == old(cards) && currentIndex == old(currentIndex)
    {
      var correct := AnswerMatches(userAnswer, cards[currentIndex].answer);
      showResult := true;
      answered := answered + 1;
      lastCorrect := Some(correct);
      if correct {
        score := score + 1;
      }
    }

    /** The Next button: on to the following card, with the feedback cleared. */
    method Next()
      requires Valid() && InProgress()
      modifies this
      ensures Valid()
      ensures currentIndex == old(currentIndex) + 1 && !showResult
      ensures cards == old(cards) && score == old(score) && answered == old(answered)
      ensures lastCorrect == old(lastCorrect)
    {
      currentIndex := currentIndex + 1;
      showResult := false;
    }

    /** The Restart button: the counters start over on the same card list, which is not fetched again. */
    method Restart()
      requires Valid() && IsCompleted()
      modifies this
      ensures Valid() && InProgress()
      ensures currentIndex == 0 && score == 0 && answered == 0 && !showResult
      ensures cards == old(cards) && lastCorrect == old(lastCorrect)
    {
      currentIndex := 0;
      score := 0;
      answered := 0;
      showResult := false;
    }

    /** The Quiz page drawn from the session state. */
    function View(): (s: Screen)
      reads this
      requires Valid()
      ensures s.NoCards? <==> cards == []
      ensures s.Completed? <==> IsCompleted()
      ensures s.Question? <==> InProgress()
      ensures s.Completed? ==> s.score == score && s.answered == answered && s.score <= s.answered
      ensures s.Question? ==>
                s.number == currentIndex + 1 && s.total == |cards| && s.text == cards[currentIndex].question
      ensures s.Question? ==> (s.feedback.Some? <==> showResult)
      ensures s.Question? && showResult ==>
                (s.feedback == Some(Correct) <==> lastCorrect == Some(true)) &&
                (lastCorrect == Some(false) ==> s.feedback == Some(Wrong(cards[currentIndex].answer)))
    {
      if cards == [] then NoCards
      else if currentIndex >= |cards| then Completed(score, answered)
      else
        var card := cards[currentIndex];
        var feedback :=
          if !showResult then None
          else if lastCorrect.value then Some(Correct)
          else Some(Wrong(card.answer));
        Question(currentIndex + 1, |cards|, card.question, feedback)
    }

    /** The counts the progress page derives from this session's counters. */
    function Progress(): (t: Option<Tally>)
      reads this
      requires Valid()
      ensures t.Some? <==> answered > 0
      ensures t.Some? ==> t.value.correct == score && t.value.incorrect == answered - score
      ensures t.Some? ==> 0 <= t.value.incorrect <= answered
    {
      ProgressTally(score, answered)
    }
  }

  /**
   * Submit may be pressed again before Next: two submits on the first card
   * leave `answered` at 2 while the index is still 0.
   */
  method RepeatedSubmitExample(card: Card, userAnswer: string) returns (index: int, answered: int)
    ensures index == 0 && answered == 2
  {
    var session := new QuizSession.Start(Response(200, [card]));
    session.Submit(userAnswer);
    session.Submit(userAnswer);
    index, answered := session.currentIndex, session.answered;
  }

  // ---------------------------------------------------------------------------
  // The add-card form

  datatype FormOutcome = Post(question: string, answer: string) | FormError(message: string)

  /** The form posts the fields as typed when neither is blank after trimming. */
  function AddFormOutcome(question: string, answer: string): (o: FormOutcome)
    ensures o.Post? <==> !IsBlank(question) && !IsBlank(answer)
    ensures o.Post? ==> o.question == question && o.answer == answer
    ensures o.FormError? ==> o.message == "Both fields are required!"
  {
    if Strip(question) != [] && Strip(answer) != [] then Post(question, answer)
    else FormError("Both fields are required!")
  }

  /**
   * The form's check is stricter than the manager's: whatever the form
   * posts passes `add_flashcard`'s falsy check, while all-whitespace text
   * passes the manager but not the form.
   */
  lemma FormCheckImpliesManagerCheck(question: string, answer: string)
    ensures AddFormOutcome(question, answer).Post? ==> Logic.FlashcardInputError(question, answer) == None
    ensures AddFormOutcome(" ", "x").FormError? && Logic.FlashcardInputError(" ", "x") == None
  {
  }

  // ---------------------------------------------------------------------------
  // The progress page

  datatype Tally = Tally(correct: int, incorrect: int)

  /** The correct and incorrect counts, computed only once something has been answered. */
  function ProgressTally(score: int, answered: int): (t: Option<Tally>)
    ensures t.Some? <==> answered > 0
    ensures t.Some? ==> t.value.correct == score && t.value.correct + t.value.incorrect == answered
    ensures t.Some? && 0 <= score <= answered ==> 0 <= t.value.incorrect <= answered
  {
    if answered > 0 then Some(Tally(score, answered - score)) else None
  }
}
