/**
 * The text viewer and editor of src/components/texts/Text.js: the text it
 * shows (a prop), the edit mode, the edited title and content, the saving
 * flag and the last error. The save request is returned instead of sent,
 * and its outcome is a parameter.
 */
module TextView {
  import opened JsStrings
  import opened Languages
  import opened Options
  import opened TextList

  /** The body of the save request. */
  datatype SavePayload = SavePayload(title: string, content: string, language: string)

  /** The outcome of the save request: a failure, or whatever the server returned. */
  datatype SaveResponse = SaveFailed | Saved(data: Option<TextItem>)

  const TitleError := "Please enter a title"
  const SaveError := "Failed to save text. Please try again."

  /**
   * The request `handleSave` sends for the edited title and content, or
   * None when the title is blank and nothing is sent.
   */
  function SaveRequest(text: TextItem, title: string, content: string): (r: Option<SavePayload>)
    ensures r.Some? ==> r.value.content == content && r.value.language == Code(text.language)
  {
    var trimmed := Trim(title);
    if trimmed == "" then None
    else Some(SavePayload(trimmed, content, Code(text.language)))
  }

  /**
   * Nothing is sent exactly when the title is blank; otherwise the title
   * sent is the trimmed one, with whitespace on neither end.
   */
  lemma SaveRequestTitle(text: TextItem, title: string, content: string)
    ensures SaveRequest(text, title, content).None? <==> AllWhitespace(title)
    ensures SaveRequest(text, title, content).Some? ==>
              var sent := SaveRequest(text, title, content).value.title;
              sent == Trim(title) && sent != [] && NoEdgeWhitespace(sent)
  {
    var t := Trim(title);
    assert t == [] <==> AllWhitespace(title);
  }

  class Editor {
    var text: TextItem
    var isEditing: bool
    var editedTitle: string
    var editedContent: string
    var saving: bool
    var error: string

    constructor (t: TextItem)
      ensures text == t && editedTitle == t.title && editedContent == t.content
      ensures !isEditing && !saving && error == ""
    {
      text := t;
      isEditing, saving, error := false, false, "";
      editedTitle, editedContent := t.title, t.content;
    }

    /** A new `text` prop resets the edited title and content to it. */
    method TextChanged(t: TextItem)
      modifies this
      ensures text == t && editedTitle == t.title && editedContent == t.content
      ensures isEditing == old(isEditing) && saving == old(saving) && error == old(error)
    {
      text := t;
      editedTitle, editedContent := t.title, t.content;
    }

    /** `handleEdit`. */
    method Edit()
      modifies this
      ensures isEditing
      ensures text == old(text) && editedTitle == old(editedTitle) && editedContent == old(editedContent)
      ensures saving == old(saving) && error == old(error)
    {
      isEditing := true;
    }

    /** Typing into the title field. */
    method TypeTitle(title: string)
      modifies this
      ensures editedTitle == title
      ensures text == old(text) && editedContent == old(editedContent) && isEditing == old(isEditing)
      ensures saving == old(saving) && error == old(error)
    {
      editedTitle := title;
    }

    /** Typing into the rich-text editor. */
    method TypeContent(content: string)
      modifies this
      ensures editedContent == content
      ensures text == old(text) && editedTitle == old(editedTitle) && isEditing == old(isEditing)
      ensures saving == old(saving) && error == old(error)
    {
      editedContent := content;
    }

    /** `handleCancel`: drops the edits, leaves edit mode and clears the error. */
    method Cancel()
      modifies this
      ensures editedTitle == text.title && editedContent == text.content
      ensures !isEditing && error == ""
      ensures text == old(text) && saving == old(saving)
    {
      editedTitle, editedContent := text.title, text.content;
      isEditing := false;
      error := "";
    }

    /**
     * `handleSave`. A blank title sets an error and sends nothing. Otherwise
     * the request goes out, with the outcome described by Submit.
     */
    method Save(response: SaveResponse) returns (request: Option<SavePayload>, updated: Option<TextItem>)
      modifies this
      ensures request == SaveRequest(old(text), old(editedTitle), old(editedContent))
      ensures request.None? ==> error == TitleError && saving == old(saving) && updated == None
      ensures request.None? ==> isEditing == old(isEditing)
      ensures request.Some? ==> !saving
      ensures request.Some? ==> error == (if response.SaveFailed? then SaveError else "")
      ensures request.Some? ==> updated == (if response.Saved? then response.data else None)
      ensures request.Some? ==> isEditing == (if updated.Some? then false else old(isEditing))
      ensures text == old(text) && editedTitle == old(editedTitle) && editedContent == old(editedContent)
    {
      request := SaveRequest(text, editedTitle, editedContent);
      if request.None? {
        error := TitleError;
        updated := None;
      } else {
        updated := Submit(response);
      }
    }

    /**
     * The request of `handleSave` once sent: saving is true while it is out
     * and false at the end whatever happened; a failure sets the save error;
     * a returned text is handed to `onUpdate` and ends edit mode.
     */
    method Submit(response: SaveResponse) returns (updated: Option<TextItem>)
      modifies this
      ensures !saving
      ensures error == (if response.SaveFailed? then SaveError else "")
      ensures updated == (if response.Saved? then response.data else None)
      ensures isEditing == (if updated.Some? then false else old(isEditing))
      ensures text == old(text) && editedTitle == old(editedTitle) && editedContent == old(editedContent)
    {
      updated := None;
      saving := true;
      error := "";
      if response.SaveFailed? {
        error := SaveError;
      } else if response.data.Some? {
        updated := response.data;
        isEditing := false;
      }
      saving := false;
    }
  }

  /** Editing, typing and then cancelling leaves the edits equal to the text again. */
  method EditTypeCancel(e: Editor, title: string, content: string)
    modifies e
    ensures e.editedTitle == e.text.title && e.editedContent == e.text.content
    ensures e.text == old(e.text) && !e.isEditing && e.error == ""
  {
    e.Edit();
    e.TypeTitle(title);
    e.TypeContent(content);
    e.Cancel();
  }
}
