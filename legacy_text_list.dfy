/**
 * The earlier text list of src/components/TextList.js: the list, the
 * selection and the last error. Unlike the later revision, `handleTextCreated`
 * itself leaves the create form open: the CreateText modal closes it through
 * `onClose` right after passing the new text on. A click selects the clicked
 * text directly without fetching it.
 */
module LegacyTextList {
  import opened IdLists
  import opened Options
  import opened TextList

  const LegacyDeleteError := "Не удалось удалить текст"
  const LegacyLoadError := "Не удалось загрузить тексты"

  class Texts {
    var texts: seq<TextItem>
    var isCreating: bool
    var selected: Option<TextItem>
    var error: string

    constructor ()
      ensures texts == [] && !isCreating && selected == None && error == ""
    {
      texts, isCreating, selected, error := [], false, None, "";
    }

    /** `fetchTexts`: a success replaces the list, a failure records the error. */
    method Load(ok: bool, data: seq<TextItem>)
      modifies this
      ensures texts == (if ok then data else old(texts))
      ensures error == (if ok then old(error) else LegacyLoadError)
      ensures isCreating == old(isCreating) && selected == old(selected)
    {
      if ok {
        texts := data;
      } else {
        error := LegacyLoadError;
      }
    }

    /** The create button opens the create form. */
    method OpenCreateForm()
      modifies this
      ensures isCreating
      ensures texts == old(texts) && selected == old(selected) && error == old(error)
    {
      isCreating := true;
    }

    /** `handleTextCreated`: exactly one text more, at the end; the form stays as it was. */
    method TextCreated(t: TextItem)
      modifies this
      ensures texts == Append(old(texts), t)
      ensures isCreating == old(isCreating) && selected == old(selected) && error == old(error)
    {
      texts := Append(texts, t);
    }

    /** The modal's `onClose`: the create form closes and nothing else changes. */
    method CloseCreateForm()
      modifies this
      ensures !isCreating
      ensures texts == old(texts) && selected == old(selected) && error == old(error)
    {
      isCreating := false;
    }

    /** A click on a list entry selects that text. */
    method Select(t: TextItem)
      modifies this
      ensures selected == Some(t)
      ensures texts == old(texts) && isCreating == old(isCreating) && error == old(error)
    {
      selected := Some(t);
    }

    /**
     * `handleDeleteText`: on success every text with the id goes and the
     * selection is cleared exactly when it had that id; on failure only the
     * error changes.
     */
    method DeleteText(id: int, ok: bool)
      modifies this
      ensures ok ==> texts == RemoveId(old(texts), id, Id)
      ensures ok ==> selected == (if old(selected).Some? && old(selected).value.id == id
                                  then None else old(selected))
      ensures ok ==> error == old(error)
      ensures !ok ==> texts == old(texts) && selected == old(selected) && error == LegacyDeleteError
      ensures isCreating == old(isCreating)
    {
      if ok {
        texts := RemoveId(texts, id, Id);
        if selected.Some? && selected.value.id == id {
          selected := None;
        }
      } else {
        error := LegacyDeleteError;
      }
    }
  }

  /**
   * A successful create in the modal: `onTextCreated` with the returned
   * text, then `onClose`. The list gains exactly that text at the end and
   * the form is closed, as in the later revision.
   */
  method CreateThenClose(l: Texts, t: TextItem)
    modifies l
    ensures l.texts == Append(old(l.texts), t) && !l.isCreating
    ensures l.selected == old(l.selected) && l.error == old(l.error)
  {
    l.TextCreated(t);
    l.CloseCreateForm();
  }
}
