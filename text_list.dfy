/**
 * The text browser of src/components/texts/TextList.js: the list of texts,
 * the selected text, the create form flag, the loading flag and the last
 * error. Network calls are parameters carrying their outcome.
 */
module TextList {
  import opened IdLists
  import opened Languages
  import opened Options

  datatype TextItem = TextItem(id: int, title: string, content: string, language: Language)

  /** The outcome of `fetchTextById`: a failure, or whatever the server returned. */
  datatype Fetch = FetchFailed | Fetched(data: Option<TextItem>)

  const LoadTextsError := "Failed to load texts"
  const LoadDetailsError := "Failed to load text details"
  const UpdateError := "Failed to update text"
  const DeleteError := "Failed to delete text"

  function Id(t: TextItem): (r: int) { t.id }

  /** The message shown for an error: the four known ones are translated. */
  function ErrorMessage(error: string): (r: string)
    ensures error == LoadTextsError ==> r == "Ошибка при загрузке текстов"
    ensures error == LoadDetailsError ==> r == "Ошибка при загрузке деталей текста"
    ensures error == UpdateError ==> r == "Ошибка при обновлении текста"
    ensures error == DeleteError ==> r == "Ошибка при удалении текста"
    ensures error !in {LoadTextsError, LoadDetailsError, UpdateError, DeleteError} ==> r == error
  {
    if error == LoadTextsError then "Ошибка при загрузке текстов"
    else if error == LoadDetailsError then "Ошибка при загрузке деталей текста"
    else if error == UpdateError then "Ошибка при обновлении текста"
    else if error == DeleteError then "Ошибка при удалении текста"
    else error
  }

  class TextBrowser {
    var texts: seq<TextItem>
    var isCreating: bool
    var selected: Option<TextItem>
    var error: string
    var loading: bool

    constructor ()
      ensures texts == [] && !isCreating && selected == None && error == "" && !loading
    {
      texts, isCreating, selected, error, loading := [], false, None, "", false;
    }

    /** `fetchTexts`: a success replaces the list, a failure records the error. */
    method LoadTexts(ok: bool, data: seq<TextItem>)
      modifies this
      ensures texts == (if ok then data else old(texts))
      ensures error == (if ok then old(error) else LoadTextsError)
      ensures isCreating == old(isCreating) && selected == old(selected) && loading == old(loading)
    {
      if ok {
        texts := data;
      } else {
        error := LoadTextsError;
      }
    }

    /** The add button opens the create form. */
    method OpenCreateForm()
      modifies this
      ensures isCreating
      ensures texts == old(texts) && selected == old(selected) && error == old(error)
      ensures loading == old(loading)
    {
      isCreating := true;
    }

    /** `handleTextCreated`: the new text goes to the end and the form closes. */
    method TextCreated(t: TextItem)
      modifies this
      ensures texts == Append(old(texts), t)
      ensures !isCreating
      ensures selected == old(selected) && error == old(error) && loading == old(loading)
    {
      texts := Append(texts, t);
      isCreating := false;
    }

    /**
     * `handleTextUpdated`: every text with the updated id is replaced, the
     * rest stay, and the updated text becomes the selection.
     */
    method TextUpdated(t: TextItem)
      modifies this
      ensures texts == ReplaceId(old(texts), t.id, Id, t)
      ensures selected == Some(t)
      ensures isCreating == old(isCreating) && error == old(error) && loading == old(loading)
    {
      texts := ReplaceId(texts, t.id, Id, t);
      selected := Some(t);
    }

    /**
     * `handleDeleteText`: on success every text with the id goes and the
     * selection is cleared exactly when it had that id; on failure only the
     * error changes.
     */
    method DeleteText(id: int, ok: bool)
      modifies this
      ensures ok ==> texts == RemoveId(old(texts), id, Id)
      ensures ok ==> selected == (if old(selected).Some? && old(selected).value.id == id
                                  then None else old(selected))
      ensures ok ==> error == old(error)
      ensures !ok ==> texts == old(texts) && selected == old(selected) && error == DeleteError
      ensures isCreating == old(isCreating) && loading == old(loading)
    {
      if ok {
        texts := RemoveId(texts, id, Id);
        if selected.Some? && selected.value.id == id {
          selected := None;
        }
      } else {
        error := DeleteError;
      }
    }

    /**
     * `handleTextClick`: fetches the full text by the clicked text's id and
     * selects it only if the server returned one; loading ends false.
     */
    method TextClick(t: TextItem, response: Fetch) returns (requestedId: int)
      modifies this
      ensures requestedId == t.id
      ensures selected == (if response.Fetched? && response.data.Some?
                           then response.data else old(selected))
      ensures error == (if response.FetchFailed? then LoadDetailsError else old(error))
      ensures !loading
      ensures texts == old(texts) && isCreating == old(isCreating)
    {
      loading := true;
      requestedId := t.id;
      var full: Option<TextItem> := None;
      if response.FetchFailed? {
        error := LoadDetailsError;
      } else {
        full := response.data;
      }
      if full.Some? {
        selected := full;
      }
      loading := false;
    }
  }
}
