/**
 * A text's `language` arrives either as a plain string or as an object with
 * `name` and `code`, or not at all. A missing field of the object reads as
 * the empty string, which JavaScript treats as false just like `undefined`.
 */
module Languages {

  datatype Language =
    | Missing
    | Plain(value: string)
    | Described(name: string, code: string)

  /** `getLanguageDisplay(lang)`: the string itself, else `name || code || ''`. */
  function Display(lang: Language): (r: string)
    ensures lang.Missing? ==> r == ""
    ensures lang.Plain? ==> r == lang.value
    ensures lang.Described? ==> r == (if lang.name != "" then lang.name else lang.code)
    ensures r == "" <==> lang.Missing? || (lang.Plain? && lang.value == "")
                         || (lang.Described? && lang.name == "" && lang.code == "")
  {
    if lang.Missing? || lang == Plain("") then ""
    else if lang.Plain? then lang.value
    else if lang.name != "" then lang.name
    else if lang.code != "" then lang.code
    else ""
  }

  /** `getLanguageCode(language)`: the string itself, else `code || ''`. */
  function Code(lang: Language): (r: string)
    ensures lang.Missing? ==> r == ""
    ensures lang.Plain? ==> r == lang.value
    ensures lang.Described? ==> r == lang.code
  {
    if lang.Missing? || lang == Plain("") then ""
    else if lang.Plain? then lang.value
    else if lang.code != "" then lang.code
    else ""
  }

  /** Display and code differ only for an object that carries a name. */
  lemma DisplayIsCodeUnlessNamed(lang: Language)
    ensures !(lang.Described? && lang.name != "") ==> Display(lang) == Code(lang)
    ensures lang.Described? && lang.name != "" ==> Display(lang) == lang.name
  {
  }

  /** The label of the language in the text list: two known codes are translated. */
  function Label(lang: Language): (r: string)
    ensures Display(lang) == "english" ==> r == "Английский"
    ensures Display(lang) == "russian" ==> r == "Русский"
    ensures Display(lang) != "english" && Display(lang) != "russian" ==> r == Display(lang)
  {
    var shown := Display(lang);
    if shown == "english" then "Английский"
    else if shown == "russian" then "Русский"
    else shown
  }
}
