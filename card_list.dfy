/**
 * The card list of a deck in src/components/CardList.js: the cards, the
 * form for a new card and the last error. The create request is returned
 * instead of sent and the outcomes of both requests are parameters.
 */
module CardList {
  import opened IdLists
  import opened Options

  datatype Card = Card(id: int, front: string, back: string, hint: string)

  /** The three fields of the new-card form. */
  datatype Form = Form(front: string, back: string, hint: string)

  /** The body of the create request. */
  datatype CardRequest = CardRequest(front: string, back: string, hint: string, deckId: int)

  const EmptyForm := Form("", "", "")
  const LoadError := "Ошибка при получении карточек"
  const CreateError := "Ошибка при создании карточки"
  const DeleteError := "Ошибка при удалении карточки"

  function Id(c: Card): (r: int) { c.id }

  /**
   * The request `createCard` sends for a form, or None when the front or
   * the back is empty and the user is alerted instead.
   */
  function CreateRequest(form: Form, deckId: int): (r: Option<CardRequest>)
    ensures r.None? <==> form.front == "" || form.back == ""
    ensures r.Some? ==> r.value.front == form.front && r.value.back == form.back
    ensures r.Some? ==> r.value.hint == form.hint && r.value.deckId == deckId
  {
    if form.front == "" || form.back == "" then None
    else Some(CardRequest(form.front, form.back, form.hint, deckId))
  }

  class Deck {
    const deckId: int
    var cards: seq<Card>
    var newCard: Form
    var error: string

    constructor (deckId: int)
      ensures this.deckId == deckId && cards == [] && newCard == EmptyForm && error == ""
    {
      this.deckId := deckId;
      cards, newCard, error := [], EmptyForm, "";
    }

    /** `fetchCards`: a success replaces the list, a failure records the error. */
    method Load(ok: bool, data: seq<Card>)
      modifies this
      ensures cards == (if ok then data else old(cards))
      ensures error == (if ok then old(error) else LoadError)
      ensures newCard == old(newCard)
    {
      if ok {
        cards := data;
      } else {
        error := LoadError;
      }
    }

    /** Typing into one of the three inputs. */
    method EditForm(form: Form)
      modifies this
      ensures newCard == form && cards == old(cards) && error == old(error)
    {
      newCard := form;
    }

    /**
     * `createCard`. With an empty side nothing is sent and nothing changes.
     * Otherwise a created card goes to the end of the list and the form is
     * cleared; a failure changes only the error.
     */
    method CreateCard(response: Option<Card>) returns (request: Option<CardRequest>)
      modifies this
      ensures request == CreateRequest(old(newCard), deckId)
      ensures request.None? ==> cards == old(cards) && newCard == old(newCard) && error == old(error)
      ensures request.Some? && response.Some? ==>
                cards == Append(old(cards), response.value) && newCard == EmptyForm && error == old(error)
      ensures request.Some? && response.None? ==>
                cards == old(cards) && newCard == old(newCard) && error == CreateError
    {
      request := CreateRequest(newCard, deckId);
      if request.None? {
        return;
      }
      if response.Some? {
        cards := Append(cards, response.value);
        newCard := EmptyForm;
      } else {
        error := CreateError;
      }
    }

    /** `deleteCard`: a success drops every card with the id, a failure changes only the error. */
    method DeleteCard(id: int, ok: bool)
      modifies this
      ensures ok ==> cards == RemoveId(old(cards), id, Id) && error == old(error)
      ensures !ok ==> cards == old(cards) && error == DeleteError
      ensures newCard == old(newCard)
    {
      if ok {
        cards := RemoveId(cards, id, Id);
      } else {
        error := DeleteError;
      }
    }
  }
}
