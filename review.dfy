/**
 * The review screen of src/components/Review.js: a queue of cards fetched
 * for a deck, the position in it, whether the answer and the hint are
 * shown, and the last error. Every network call is a parameter saying
 * whether it succeeded; the `onFinish` callback is counted.
 */
module Review {

  datatype Card = Card(cardId: int, front: string, back: string, hint: string)

  /** The four grades the screen offers once the answer is shown. */
  datatype Action = Again | Hard | Good | Easy

  /** The grade name the request carries; distinct grades send distinct names. */
  function ActionName(a: Action): (r: string)
    ensures r == "AGAIN" <==> a == Again
    ensures r == "HARD" <==> a == Hard
    ensures r == "GOOD" <==> a == Good
    ensures r == "EASY" <==> a == Easy
  {
    match a
    case Again => "AGAIN"
    case Hard => "HARD"
    case Good => "GOOD"
    case Easy => "EASY"
  }

  /** The body of the grading request. */
  datatype Submission = Submission(userCardId: int, action: string)

  const LoadError := "Ошибка при получении карточек для повторения"
  const SubmitError := "Ошибка при отправке результата повторения"

  /** What the hint corner of the card shows. */
  datatype HintArea = NoHint | HintButton | HintText(hint: string)

  /** What the screen renders. */
  datatype Screen =
    | NoCards
    | CardScreen(face: string, hint: HintArea, actions: seq<Action>,
                 position: int, total: int, error: string)

  class Session {
    var cards: seq<Card>
    var index: nat
    var showBack: bool
    var showHint: bool
    var error: string
    /** How many times `onFinish` has been called. */
    var finishCalls: nat

    /** The position is a valid index whenever there is a card to show. */
    ghost predicate Valid()
      reads this
    {
      cards != [] ==> index < |cards|
    }

    constructor ()
      ensures Valid()
      ensures cards == [] && index == 0 && !showBack && !showHint
      ensures error == "" && finishCalls == 0
    {
      cards, index, showBack, showHint := [], 0, false, false;
      error, finishCalls := "", 0;
    }

    /**
     * `fetchCardsForReview`: a successful fetch replaces the queue, a failed
     * one records the error; nothing else changes either way.
     */
    method Load(ok: bool, data: seq<Card>)
      modifies this
      ensures ok ==> cards == data && error == old(error)
      ensures !ok ==> cards == old(cards) && error == LoadError
      ensures index == old(index) && showBack == old(showBack) && showHint == old(showHint)
      ensures finishCalls == old(finishCalls)
      ensures Valid() <==> cards == [] || index < |cards|
    {
      if ok {
        cards := data;
      } else {
        error := LoadError;
      }
    }

    /**
     * `handleReviewAction(action)`: submits the grade of the current card.
     * On success it moves to the next card, hiding answer and hint, or on
     * the last card calls `onFinish` and stays put. On failure only the
     * error changes. With no current card the request is never sent and the
     * error is set.
     */
    method Grade(action: Action, ok: bool) returns (sent: bool, request: Submission)
      modifies this
      ensures old(Valid()) ==> Valid()
      ensures cards == old(cards)
      ensures sent <==> old(index) < |cards|
      ensures sent ==> request == Submission(cards[old(index)].cardId, ActionName(action))
      ensures sent && ok && old(index) + 1 < |cards| ==>
                index == old(index) + 1 && !showBack && !showHint
                && finishCalls == old(finishCalls) && error == old(error)
      ensures sent && ok && old(index) + 1 >= |cards| ==>
                index == old(index) && showBack == old(showBack) && showHint == old(showHint)
                && finishCalls == old(finishCalls) + 1 && error == old(error)
      ensures !(sent && ok) ==>
                index == old(index) && showBack == old(showBack) && showHint == old(showHint)
                && finishCalls == old(finishCalls) && error == SubmitError
    {
      request := Submission(0, ActionName(action));
      if index >= |cards| {
        sent := false;
        error := SubmitError;
        return;
      }
      sent := true;
      request := Submission(cards[index].cardId, ActionName(action));
      if !ok {
        error := SubmitError;
      } else if index + 1 < |cards| {
        index := index + 1;
        showBack := false;
        showHint := false;
      } else {
        finishCalls := finishCalls + 1;
      }
    }

    /** A click on the card flips the answer side and nothing else. */
    method ClickCard()
      modifies this
      ensures showBack == !old(showBack)
      ensures cards == old(cards) && index == old(index) && showHint == old(showHint)
      ensures error == old(error) && finishCalls == old(finishCalls)
    {
      showBack := !showBack;
    }

    /** `toggleHint`: flips the hint and nothing else. */
    method ToggleHint()
      modifies this
      ensures showHint == !old(showHint)
      ensures cards == old(cards) && index == old(index) && showBack == old(showBack)
      ensures error == old(error) && finishCalls == old(finishCalls)
    {
      showHint := !showHint;
    }

    /** What the component renders for the current state. */
    function Render(): (r: Screen)
      requires Valid()
      reads this
      ensures r == NoCards <==> cards == []
      ensures r.CardScreen? ==> (r.actions != [] <==> showBack)
      ensures r.CardScreen? && showBack ==>
                r.actions == [Again, Hard, Good, Easy] && r.face == cards[index].back
                && r.hint == NoHint
      ensures r.CardScreen? && !showBack ==> r.face == cards[index].front
      ensures r.CardScreen? ==> r.position == index + 1 && 1 <= r.position <= r.total == |cards|
      ensures r.CardScreen? ==> r.error == error
      ensures r.CardScreen? ==> (r.hint == NoHint <==> showBack || cards[index].hint == "")
      ensures r.CardScreen? ==>
                (r.hint.HintText? <==> !showBack && cards[index].hint != "" && showHint)
      ensures r.CardScreen? && r.hint.HintText? ==> r.hint.hint == cards[index].hint
    {
      if cards == [] then NoCards
      else
        var card := cards[index];
        var hint :=
          if card.hint == "" || showBack then NoHint
          else if showHint then HintText(card.hint)
          else HintButton;
        CardScreen(
          if showBack then card.back else card.front,
          hint,
          if showBack then [Again, Hard, Good, Easy] else [],
          index + 1, |cards|, error)
    }
  }

  /** Two clicks on the card leave the whole state as it was. */
  method ClickTwice(s: Session)
    modifies s
    ensures s.showBack == old(s.showBack) && s.index == old(s.index) && s.cards == old(s.cards)
    ensures s.showHint == old(s.showHint) && s.error == old(s.error)
    ensures s.finishCalls == old(s.finishCalls)
  {
    s.ClickCard();
    s.ClickCard();
  }

  /**
   * Two due cards, both graded successfully: the first grade moves to the
   * second card, the second calls `onFinish` once and the position stays
   * on the last card.
   */
  method GradeTwoCards(a: Card, b: Card) returns (s: Session)
    ensures s.Valid()
    ensures s.index == 1 && s.finishCalls == 1 && s.error == ""
  {
    s := new Session();
    s.Load(true, [a, b]);
    s.ClickCard();
    var sent, request := s.Grade(Good, true);
    assert s.index == 1 && !s.showBack;
    s.ClickCard();
    sent, request := s.Grade(Easy, true);
  }

  /** A failed grade changes nothing but the error; a retry then advances by one. */
  method RetryAfterFailure(a: Card, b: Card) returns (s: Session)
    ensures s.Valid()
    ensures s.index == 1 && s.error == SubmitError && s.finishCalls == 0
  {
    s := new Session();
    s.Load(true, [a, b]);
    s.ClickCard();
    var sent, request := s.Grade(Good, false);
    assert s.index == 0 && s.showBack;
    sent, request := s.Grade(Good, true);
  }
}
