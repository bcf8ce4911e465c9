# Cardy front end: a Dafny model of its components

Cardy is a flash-card and reading app whose React front end shows decks of
cards, runs spaced-repetition review sessions, renders AI answers, and keeps
a library of texts. This project models the logic of these components:

- the two revisions of the card tile (`CardItem`). They turn the difficulty
  and stability of a card into labels and colours. They also turn the time
  until the next review into Russian text, with hours, days or months and
  the right plural form.
- the review session (`Review`). It holds a queue of due cards, the current
  position, and whether the answer and the hint are shown. Grading a card
  moves to the next one or finishes the session.
- the AI answer panel (`AIResponse`). It decides between spinner, error,
  nothing and content. It also turns a light Markdown dialect into HTML, line
  by line: `##` and `###` headings, and `**bold**` runs.
- the text library (`texts/TextList`). It holds a list of texts, appends
  created ones, replaces updated ones by id, filters deleted ones out by id,
  and selects the clicked one.
- the text viewer and editor (`texts/Text`). It holds one text, the edit
  mode and the edited title and content, and builds the save request.
- the card list of a deck (`CardList`). It appends created cards and filters
  deleted ones out by id.
- the earlier text list (`TextList`). It appends created texts and filters
  deleted ones out by id.

Pure code is modelled as functions with lemmas. Components that update their
state are classes whose methods state the complete new state. Every network
request is a parameter that carries its outcome. Times are integer
milliseconds.

Modules:

- `JsStrings` holds the JavaScript string primitives the components use.
- `CardFormat` holds the rules shared by both card tiles.
- `CardItem` and `CardsCardItem` hold the two ladders of the tile.
- `Review` holds the review session.
- `AIResponse` holds the answer panel.
- `IdLists` holds the list updates.
- `Languages` handles the two shapes of a text's language.
- `TextList`, `TextView`, `CardList` and `LegacyTextList` hold the list and
  editor components.

## Model

| member | source | states |
|---|---|---|
| CardFormat.DifficultyText | src/components/CardItem.js:80-84 | exactly one band per difficulty: Легкая below 0.6, Средняя from 0.6 to 2.5 inclusive, Сложная above |
| CardFormat.DifficultyColor | src/components/CardItem.js:6-10 | success, warning or error colour, each exactly on its band |
| CardFormat.ColorMatchesText | src/components/CardItem.js:6-10 | the colour is success/warning/error exactly when the text is Легкая/Средняя/Сложная |
| CardFormat.StabilityText | src/components/CardItem.js:73-78 | Низкая up to 1, Средняя above 1 up to 15, Высокая above 15, each an iff |
| CardFormat.StabilityMonotone | src/components/CardItem.js:73-78 | more stability never gives a lower band |
| CardFormat.Plural | src/components/CardItem.js:55-71 | first form for 1, second for 2 to 4, third for every other count |
| CardFormat.HoursWord | src/components/CardItem.js:55-59 | час iff 1, часа iff 2..4, часов otherwise (0, 11, 21 included) |
| CardFormat.DaysWord | src/components/CardItem.js:61-65 | день iff 1, дня iff 2..4, дней otherwise |
| CardFormat.MonthsWord | src/components/CardItem.js:67-71 | месяц iff 1, месяца iff 2..4, месяцев otherwise |
| CardFormat.CeilDiv | src/components/CardItem.js:16-17 | `Math.ceil` of the quotient: the q with (q-1)*b < a <= q*b |
| CardFormat.FloorDiv | src/components/CardItem.js:18 | `Math.floor` of the quotient: the q with q*b <= a < (q+1)*b |
| CardFormat.CeilDivAtMost | src/components/CardItem.js:16-17 | the rounded-up quotient is at most n exactly when a <= n*b |
| CardFormat.PrefixThenDigit | src/components/CardItem.js:36 | a counted text starts with "Через " and then a digit |
| CardFormat.CountedTextShape | src/components/CardItem.js:34-52 | the text (`Text`) of every hours, days or months outcome starts with "Через " and then a digit |
| CardFormat.FixedTextsAreDistinct | src/components/CardItem.js:21-30 | in the text of an outcome (`Text`), Новая, На повторение, Менее часа and Через час each come from exactly one outcome |
| CardItem.HoursFirst | src/components/CardItem.js:12-53 | each outcome of the ladder holds exactly on its range of diff: overdue below 0, under an hour at 0, in an hour up to 1 h, hours up to 2 days, months beyond 59 days, days in between |
| CardItem.HourSplit | src/components/CardItem.js:32-41 | a count of two or more hours is shown as hours alone below 24, and otherwise as at least one whole day plus 0 to 23 hours that add back up to the count |
| CardItem.HourBranchSplitsHours | src/components/CardItem.js:32-41 | in the hours branch days*24 + hours equals the rounded-up hour count, days <= 2, hours < 24 |
| CardItem.MonthsOnlyFromSixtyDays | src/components/CardItem.js:44-48 | months are shown iff the rounded-up day count is at least 60, and then at least two |
| CardItem.DaysBetweenThreeAndFiftyNine | src/components/CardItem.js:50-52 | the fallback day count is the rounded-up day count and lies in 3..59 |
| CardItem.FormatNextReview | src/components/CardItem.js:12-53 | overdue iff nextReview < now, and then the overdue text; Менее часа iff nextReview == now; Через час iff 0 < nextReview - now <= 1 h |
| CardsCardItem.CardColor | src/components/cards/CardItem.js:8-13 | neutral colour for a new card whatever the difficulty, otherwise the three bands |
| CardsCardItem.DaysFirst | src/components/cards/CardItem.js:21-44 | days shown iff diff > 1 day, with a count >= 2; hours shown iff 1 h < diff <= 1 day, with a count in 2..24; overdue, under an hour and in an hour on the same ranges as before |
| CardsCardItem.FormatNextReview | src/components/cards/CardItem.js:15-45 | a new card always gets Новая with isNew set; otherwise overdue iff nextReview < now, and the fixed texts on their exact ranges |
| CardsCardItem.RevisionsAgreeWithinTheHour | src/components/cards/CardItem.js:28-41 | both revisions give the same outcome for any diff up to one hour |
| CardsCardItem.RevisionsAgreeOnDays | src/components/cards/CardItem.js:33-35 | both revisions show the same day count between 2 and 59 days |
| CardsCardItem.HalfHourBeforeSaysInAnHour | src/components/cards/CardItem.js:37-41 | half an hour before the review both revisions show Через час, not Менее часа |
| CardsCardItem.RevisionsDisagreeOnTheSecondDay | src/components/cards/CardItem.js:33-35 | between one and two days the later revision shows 2 days where the earlier shows days and hours |
| Review.Session.constructor | src/components/Review.js:8-12 | empty queue, position 0, answer and hint hidden, no error |
| Review.Session.Load | src/components/Review.js:19-32 | a successful fetch replaces the queue, a failed one keeps it and sets the load error; nothing else changes |
| Review.Session.Grade | src/components/Review.js:34-56 | the request carries the current card's id and the action name; success moves to the next card hiding answer and hint, or on the last card calls onFinish and stays; failure changes only the error; the position stays a valid index |
| Review.Session.ClickCard | src/components/Review.js:79 | flips showBack and changes nothing else |
| Review.Session.ToggleHint | src/components/Review.js:58-60 | flips showHint and changes nothing else |
| Review.Session.Render | src/components/Review.js:62-105 | the no-cards view iff the queue is empty; the four grades offered iff the answer is shown; the face is the current card's back iff the answer is shown; the hint corner is empty iff the answer is shown or the card has no hint, and shows the hint iff it is toggled on; "card i of n" with i = index + 1; the error shown is the state's |
| Review.ActionName | src/components/Review.js:97-100 | each grade sends its own name, AGAIN, HARD, GOOD or EASY, and no two grades share one |
| Review.ClickTwice | src/components/Review.js:79 | two clicks restore the whole state: queue, position, answer, hint, error and onFinish calls |
| Review.GradeTwoCards | src/components/Review.js:43-51 | two successful grades on a two-card queue end on the last card with onFinish called once |
| Review.RetryAfterFailure | src/components/Review.js:52-55 | a failed grade keeps the position and a retry then advances by one |
| JsStrings.TrimStart | src/components/texts/Text.js:37 | drops exactly the leading whitespace: the result is a suffix, what was dropped is whitespace, and the result does not start with whitespace |
| JsStrings.TrimEnd | src/components/texts/Text.js:37 | drops exactly the trailing whitespace |
| JsStrings.Trim | src/components/texts/Text.js:37 | empty iff the input is all whitespace; otherwise no whitespace at either end; what it drops after the kept text is whitespace (what it drops before is TrimStart's) |
| JsStrings.TrimSlice | src/components/texts/Text.js:47 | the trimmed text is a prefix of what trimStart leaves, so a contiguous slice of the input |
| JsStrings.TrimEmpty | src/components/texts/Text.js:37 | trimEnd after trimStart is empty exactly for blank text |
| JsStrings.TrimIdempotent | src/components/texts/Text.js:47 | trimming twice is trimming once |
| JsStrings.StartsWith | src/components/common/AIResponse.js:29-32 | holds exactly when s is the prefix followed by the rest of s |
| JsStrings.Join | src/components/common/AIResponse.js:37 | its length is the pieces' total plus one separator between neighbours, and it starts with the first piece |
| JsStrings.Split | src/components/common/AIResponse.js:27 | at least one piece |
| JsStrings.SplitPiecesLackSep | src/components/common/AIResponse.js:27 | no piece contains the separator |
| JsStrings.SplitCount | src/components/common/AIResponse.js:27 | one piece per separator, plus one |
| JsStrings.JoinSplit | src/components/common/AIResponse.js:27 | joining the pieces with the separator gives back the input |
| JsStrings.SplitJoin | src/components/common/AIResponse.js:27 | splitting separator-free pieces joined by the separator gives back the pieces |
| JsStrings.SplitNoSep | src/components/common/AIResponse.js:27 | text without the separator is a single piece |
| JsStrings.SplitAppend | src/components/common/AIResponse.js:27 | splitting a + sep + b gives the pieces of a followed by those of b |
| JsStrings.Decimal | src/components/CardItem.js:36 | a non-empty string of decimal digits with no leading zero: it starts with '0' only for 0, which is "0" |
| JsStrings.DecimalRoundTrip | src/components/CardItem.js:36 | reading the digits back gives the number |
| AIResponse.Close | src/components/common/AIResponse.js:35 | the lazy group stops at the first `**` with no line terminator before it, or finds none |
| AIResponse.CloseFindsFirst | src/components/common/AIResponse.js:35 | the first reachable `**` is where the lazy group stops |
| AIResponse.CloseAfterPlain | src/components/common/AIResponse.js:35 | in `**x**` with plain x the group closes at the end |
| AIResponse.BoldWithoutPair | src/components/common/AIResponse.js:35 | the global replacement (`Bold`) leaves a line with no `**` unchanged |
| AIResponse.BoldUnclosed | src/components/common/AIResponse.js:35 | a line whose every `**` has no closing `**` on its line is copied unchanged, markers included |
| AIResponse.BoldSingleRun | src/components/common/AIResponse.js:35 | `**x**` with plain x becomes `<strong>x</strong>` |
| AIResponse.BoldRunThen | src/components/common/AIResponse.js:35 | a run `**x**` with plain x at the start of a line becomes `<strong>x</strong>`, and the rest of the line is scanned in turn |
| AIResponse.BoldAfterPlain | src/components/common/AIResponse.js:35 | the `g` flag: after any prefix without `**` (and not ending in '*'), the first run with plain text becomes `<strong>x</strong>`, the prefix is copied, and the rest is scanned in turn |
| AIResponse.BoldTwoRuns | src/components/common/AIResponse.js:35 | on a line with two plain runs separated by plain text, both runs are replaced and the text between is kept |
| AIResponse.UnboldBold | src/components/common/AIResponse.js:35 | on text without '<', turning the tags back into `**` recovers the line: the replacement loses nothing |
| AIResponse.UnboldPlain | src/components/common/AIResponse.js:35 | the inverse passes text without '<' through unchanged |
| AIResponse.UnboldRun | src/components/common/AIResponse.js:35 | a strong element around plain text turns back into a `**` run |
| AIResponse.HeadingTwo | src/components/common/AIResponse.js:29-31 | in the line transform (`FormatLine`), `##` followed by text not starting with '#' becomes an h2 of the trimmed text, with no bold substitution |
| AIResponse.HeadingThree | src/components/common/AIResponse.js:32-34 | `###` followed by any text becomes an h3 of the trimmed text, with no bold substitution |
| AIResponse.PlainLineUnchanged | src/components/common/AIResponse.js:35 | a non-heading line without `**` is shown as it is |
| AIResponse.UnclosedLineUnchanged | src/components/common/AIResponse.js:29-35 | a non-heading line whose `**` are never closed is shown as it is |
| AIResponse.FormatLines | src/components/common/AIResponse.js:28-36 | one output per line, in order, each the line's own transform |
| AIResponse.FormatLinesAppend | src/components/common/AIResponse.js:28-36 | the transforms of two blocks of lines are those of each block, concatenated |
| AIResponse.JoinAppend | src/components/common/AIResponse.js:37 | joining two non-empty lists is joining each and putting the separator between |
| AIResponse.SegmentPerLine | src/components/common/AIResponse.js:26-28 | one formatted segment per '\n'-separated line |
| AIResponse.FormatContentOneLine | src/components/common/AIResponse.js:25-38 | text on one line is formatted as that line |
| AIResponse.FormatContentAtBreak | src/components/common/AIResponse.js:25-38 | in `formatContent` (`FormatContent`), a line break becomes `<br>` and the two sides are formatted separately |
| AIResponse.Render | src/components/common/AIResponse.js:5-23 | spinner iff loading; otherwise the error iff there is one; otherwise nothing iff the content is empty; otherwise the formatted content |
| IdLists.Append | src/components/texts/TextList.js:41 | one element more, the old list as prefix, the new element last |
| IdLists.ReplaceId | src/components/texts/TextList.js:47-49 | same length; elements with the id replaced, all others unchanged |
| IdLists.ReplaceIdKeepsIds | src/components/texts/TextList.js:47-49 | replacing with an element of the same id keeps every position's id |
| IdLists.ReplaceIdAbsent | src/components/texts/TextList.js:47-49 | with no element carrying the id, nothing changes |
| IdLists.RemoveId | src/components/texts/TextList.js:63 | no survivor has the id, every survivor was in the list, every element without the id survives |
| IdLists.RemoveIdDistributes | src/components/texts/TextList.js:63 | filtering works piece by piece, so the survivors keep their order |
| IdLists.RemoveIdAbsent | src/components/texts/TextList.js:63 | with no element carrying the id, the filter changes nothing |
| IdLists.RemoveIdIdempotent | src/components/texts/TextList.js:63 | deleting the same id twice is deleting it once |
| Languages.Display | src/components/texts/TextList.js:82-86 | '' when missing, the string itself, or name, else code, else ''; empty exactly in those cases |
| Languages.Code | src/components/texts/Text.js:30-34 | '' when missing, the string itself, or the object's code |
| Languages.DisplayIsCodeUnlessNamed | src/components/texts/Text.js:79-83 | display and code differ only for an object with a name |
| Languages.Label | src/components/texts/TextList.js:125-127 | english shows Английский, russian shows Русский, anything else the display string |
| TextList.ErrorMessage | src/components/texts/TextList.js:101-107 | the four known errors are shown in Russian, any other as it is |
| TextList.TextBrowser.constructor | src/components/texts/TextList.js:9-13 | empty list, form closed, nothing selected, no error, not loading |
| TextList.TextBrowser.LoadTexts | src/components/texts/TextList.js:19-27 | a success replaces the list, a failure keeps it and sets the load error |
| TextList.TextBrowser.OpenCreateForm | src/components/texts/TextList.js:93-95 | opens the create form and changes nothing else |
| TextList.TextBrowser.TextCreated | src/components/texts/TextList.js:40-43 | the new text is appended and the form closes |
| TextList.TextBrowser.TextUpdated | src/components/texts/TextList.js:45-55 | the texts with the id are replaced, the rest kept, and the updated text selected |
| TextList.TextBrowser.DeleteText | src/components/texts/TextList.js:57-71 | success filters out the id and clears the selection iff it had the id; failure changes only the error |
| TextList.TextBrowser.TextClick | src/components/texts/TextList.js:73-80 | requests the clicked id; selects only a returned text; a failed fetch sets its error; loading ends false |
| TextView.SaveRequest | src/components/texts/Text.js:36-50 | the payload carries the unmodified content and the language code |
| TextView.SaveRequestTitle | src/components/texts/Text.js:37-47 | nothing is sent iff the title is blank; otherwise the title sent is the trimmed one, non-empty, with whitespace on neither end |
| TextView.Editor.constructor | src/components/texts/Text.js:8-12 | edits start as the text's title and content, not editing, not saving, no error |
| TextView.Editor.TextChanged | src/components/texts/Text.js:14-17 | a new text prop resets both edits to it |
| TextView.Editor.Edit | src/components/texts/Text.js:19-21 | enters edit mode and changes nothing else |
| TextView.Editor.TypeTitle | src/components/texts/Text.js:92 | sets the edited title only |
| TextView.Editor.TypeContent | src/components/texts/Text.js:135 | sets the edited content only |
| TextView.Editor.Cancel | src/components/texts/Text.js:23-28 | restores both edits from the text, leaves edit mode and clears the error |
| TextView.Editor.Save | src/components/texts/Text.js:36-62 | a blank title sets the title error and sends nothing; otherwise the request is the trimmed payload and the outcome is Submit's |
| TextView.Editor.Submit | src/components/texts/Text.js:42-61 | saving ends false whatever happens; a failure sets the save error; only a returned text is passed on and ends edit mode |
| TextView.EditTypeCancel | src/components/texts/Text.js:23-28 | editing, typing and cancelling leaves the edits equal to the text, out of edit mode, with no error |
| CardList.CreateRequest | src/components/CardList.js:24-35 | nothing is sent iff front or back is empty; otherwise the request carries the three fields and the deck id |
| CardList.Deck.constructor | src/components/CardList.js:5-8 | empty list, empty form, no error |
| CardList.Deck.Load | src/components/CardList.js:10-18 | a success replaces the list, a failure keeps it and sets the load error |
| CardList.Deck.EditForm | src/components/CardList.js:62-79 | sets the form and changes nothing else |
| CardList.Deck.CreateCard | src/components/CardList.js:24-45 | an empty side changes nothing; a created card is appended and the form cleared; a failure changes only the error |
| CardList.Deck.DeleteCard | src/components/CardList.js:47-55 | success filters out the id, keeping the order of the rest; failure changes only the error |
| LegacyTextList.Texts.constructor | src/components/TextList.js:8-11 | empty list, form closed, nothing selected, no error |
| LegacyTextList.Texts.Load | src/components/TextList.js:17-25 | a success replaces the list, a failure keeps it and sets the load error |
| LegacyTextList.Texts.OpenCreateForm | src/components/TextList.js:50-55 | opens the create form and changes nothing else |
| LegacyTextList.Texts.TextCreated | src/components/TextList.js:27-29 | exactly one text more, at the end; the handler itself leaves the form as it was (the modal closes it next) |
| LegacyTextList.Texts.CloseCreateForm | src/components/TextList.js:88 | the modal's onClose closes the create form and changes nothing else |
| LegacyTextList.CreateThenClose | src/components/CreateText.js:45-46 | a successful create passes the text on and then closes: the list gains exactly that text at the end and the form is closed |
| LegacyTextList.Texts.Select | src/components/TextList.js:64 | the clicked text becomes the selection |
| LegacyTextList.Texts.DeleteText | src/components/TextList.js:31-42 | success filters out the id and clears the selection iff it had the id; failure changes only the error |

## Left out

- Network calls are left out. Each axios request is a parameter carrying its outcome (success or failure, plus the data returned). Endpoints, query parameters and `console.error` are not modelled.
- Dates are left out: `new Date(...)` and the clock are replaced by integer milliseconds `nextReview` and `now`.
  - `Math.ceil` and `Math.floor` of a floating-point quotient become exact integer rounding.
  - The invalid-date (NaN) path is not modelled.
- Difficulty and stability are exact reals, because the components only compare them. `toFixed(1)` and `toLocaleString` are display only.
- JSX and the display side effects are left out: CSS classes, tooltips, icons, `alert`, ReactQuill, and the HTML injection of `dangerouslySetInnerHTML`. Strings are sequences of Unicode scalar values, so UTF-16 lone surrogates cannot occur.
- The review screen reads the current card without a bounds check. `Review.Session.Render` therefore requires a valid position: the component would fail on an undefined card.
- Calling `onFinish` is counted in `finishCalls`. The routes of `src/App.js` mount the review screen without that prop. There the call would throw inside the `try` and set the submit error. That wiring is not part of this model.
- There is no learning phase. The position never reaches the end of the queue: on the last card the code calls `onFinish` and leaves the position where it is. The model follows the code.
- The plural rule counts 21, 22, ... as the third form (часов, дней). This is the code as written, and the model keeps it.
- `Languages.Display` stands for both copies of `getLanguageDisplay`, at src/components/texts/TextList.js:82-86 and src/components/texts/Text.js:79-83, which are identical.
- The `catch` branch of `handleTextUpdated` is not modelled. Its body does not throw, so `Failed to update text` is never set; it appears only as a known message in `TextList.ErrorMessage`.
- The effect of `onUpdate` on the parent list is modelled separately, as `TextList.TextBrowser.TextUpdated`. The two components are not composed.
- A successful card creation appends whatever the server returned. The model takes that to be a card (`CardList.Deck.CreateCard`); an empty response body is not modelled.
- The old text list renders `text.language.value`, which assumes an object language. This is rendering only and is left out.
- Markdown handling follows the code's regular expression only. `.` stops at line terminators, and the match is the leftmost, shortest `**...**` on the line. The HTML is not escaped.
- Review.Session.Grade: the handler is modelled as one step. The grade buttons stay enabled while the request is out, and the handler reads the position captured at render. So two quick clicks send two grades for the same card and advance only once; on the last card they call `onFinish` twice. Overlapping calls are not captured.
- TextList.TextBrowser.DeleteText: the handler is modelled as one step. After the request returns, the source filters the list captured before it. A text created in between is lost from the list; overlapping calls are not captured.
- CardList.Deck.CreateCard: the handler is modelled as one step. After the request returns, the source appends to the list captured before it. A change landing in between is overwritten; overlapping calls are not captured.
- CardList.Deck.DeleteCard: the handler is modelled as one step. After the request returns, the source filters the list captured before it. A card created in between is lost from the list; overlapping calls are not captured.
- LegacyTextList.Texts.DeleteText: the handler is modelled as one step. After the request returns, the source filters the list captured before it. A text created in between is lost from the list; overlapping calls are not captured.
- TextList.TextBrowser.TextUpdated: the handler is modelled as one step. The editor awaits the PUT and then calls the `onUpdate` captured at click time, which maps the list captured before the request. A text deleted in the meantime comes back, and a selection made in the meantime is replaced by the updated text; overlapping calls are not captured.
- TextList.TextBrowser.TextClick: the handler is modelled as one step. A slower fetch that returns after a later click can still replace the selection; overlapping calls are not captured.
- Both ladders round the hour count up. Half an hour before the review they show Через час, and Менее часа only at the exact instant (`CardsCardItem.HalfHourBeforeSaysInAnHour`). The model follows the code.
- `AIResponse.UnboldBold` is proved for text without '<'. Text that already contains tags cannot be told apart from the inserted ones.
