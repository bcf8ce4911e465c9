/**
 * The presentation rules shared by both revisions of the card tile: the
 * difficulty and stability bands, the Russian three-way plural choice, the
 * millisecond arithmetic of the time-until-review ladder, and the text of
 * each ladder outcome. Difficulty and stability are compared, never
 * computed with, so they are modelled as reals.
 */
module CardFormat {
  import opened JsStrings

  // ---------------------------------------------------------------------
  // Difficulty and stability bands
  // ---------------------------------------------------------------------

  const Easy := "Легкая"
  const Medium := "Средняя"
  const Hard := "Сложная"

  const SuccessColor := "var(--success-color)"
  const WarningColor := "var(--warning-color)"
  const ErrorColor := "var(--error-color)"

  /** The difficulty band shown in the tooltip: below 0.6, 0.6 to 2.5 inclusive, above 2.5. */
  function DifficultyText(difficulty: real): (r: string)
    ensures r == Easy <==> difficulty < 0.6
    ensures r == Medium <==> 0.6 <= difficulty <= 2.5
    ensures r == Hard <==> 2.5 < difficulty
  {
    if difficulty < 0.6 then Easy
    else if difficulty <= 2.5 then Medium
    else Hard
  }

  /** The colour of the difficulty indicator, on the same thresholds. */
  function DifficultyColor(difficulty: real): (r: string)
    ensures r == SuccessColor <==> difficulty < 0.6
    ensures r == WarningColor <==> 0.6 <= difficulty <= 2.5
    ensures r == ErrorColor <==> 2.5 < difficulty
  {
    if difficulty < 0.6 then SuccessColor
    else if difficulty <= 2.5 then WarningColor
    else ErrorColor
  }

  /** The colour and the text always name the same band. */
  lemma ColorMatchesText(difficulty: real)
    ensures DifficultyColor(difficulty) == SuccessColor <==> DifficultyText(difficulty) == Easy
    ensures DifficultyColor(difficulty) == WarningColor <==> DifficultyText(difficulty) == Medium
    ensures DifficultyColor(difficulty) == ErrorColor <==> DifficultyText(difficulty) == Hard
  {
  }

  const Low := "Низкая"
  const High := "Высокая"

  /** The stability band, in days: up to 1, up to 15, above 15. */
  function StabilityText(stability: real): (r: string)
    ensures r == Low <==> stability <= 1.0
    ensures r == Medium <==> 1.0 < stability <= 15.0
    ensures r == High <==> 15.0 < stability
  {
    if stability <= 1.0 then Low
    else if stability <= 15.0 then Medium
    else High
  }

  /** Position of a stability band in the order Low < Medium < High. */
  function StabilityRank(band: string): (rank: nat)
  {
    if band == Low then 0 else if band == Medium then 1 else 2
  }

  /** More stability never gives a lower band. */
  lemma StabilityMonotone(s1: real, s2: real)
    requires s1 <= s2
    ensures StabilityRank(StabilityText(s1)) <= StabilityRank(StabilityText(s2))
  {
  }

  // ---------------------------------------------------------------------
  // Plural forms
  // ---------------------------------------------------------------------

  /**
   * The plural choice of the components: 1 takes the first form, 2 to 4 the
   * second, every other count (0, 5 to 20, 21, ...) the third.
   */
  function Plural(n: int, one: string, few: string, many: string): (r: string)
    ensures n == 1 ==> r == one
    ensures 2 <= n <= 4 ==> r == few
    ensures (n < 1 || 4 < n) ==> r == many
  {
    if n == 1 then one
    else if 2 <= n <= 4 then few
    else many
  }

  function HoursWord(n: int): (r: string)
    ensures r == "час" <==> n == 1
    ensures r == "часа" <==> 2 <= n <= 4
    ensures r == "часов" <==> (n < 1 || 4 < n)
  {
    Plural(n, "час", "часа", "часов")
  }

  function DaysWord(n: int): (r: string)
    ensures r == "день" <==> n == 1
    ensures r == "дня" <==> 2 <= n <= 4
    ensures r == "дней" <==> (n < 1 || 4 < n)
  {
    Plural(n, "день", "дня", "дней")
  }

  function MonthsWord(n: int): (r: string)
    ensures r == "месяц" <==> n == 1
    ensures r == "месяца" <==> 2 <= n <= 4
    ensures r == "месяцев" <==> (n < 1 || 4 < n)
  {
    Plural(n, "месяц", "месяца", "месяцев")
  }

  // ---------------------------------------------------------------------
  // Millisecond arithmetic
  // ---------------------------------------------------------------------

  const MsPerHour: int := 1000 * 60 * 60
  const MsPerDay: int := 1000 * 60 * 60 * 24

  /** `Math.ceil(a / b)` for a positive divisor: the least q with a <= q * b. */
  function CeilDiv(a: int, b: int): (q: int)
    requires b > 0
    ensures (q - 1) * b < a <= q * b
  {
    var d := (-a) / b;
    assert d * b <= -a < d * b + b;
    -d
  }

  /** `Math.floor(a / b)` for a positive divisor: the greatest q with q * b <= a. */
  function FloorDiv(a: int, b: int): (q: int)
    requires b > 0
    ensures q * b <= a < (q + 1) * b
  {
    a / b
  }

  /** A rounded-up quotient is at most n exactly when a is at most n times b. */
  lemma CeilDivAtMost(a: int, b: int, n: int)
    requires b > 0
    ensures CeilDiv(a, b) <= n <==> a <= n * b
  {
    var q := CeilDiv(a, b);
    if q <= n {
      MulMonotone(q, n, b);
    } else {
      MulMonotone(n, q - 1, b);
    }
  }

  /** Multiplying by a non-negative factor keeps the order. */
  lemma MulMonotone(x: int, y: int, b: int)
    requires x <= y && b >= 0
    ensures x * b <= y * b
  {
    var d := y - x;
    assert y * b == x * b + d * b;
  }

  // ---------------------------------------------------------------------
  // Outcomes of the time-until-review ladders and their text
  // ---------------------------------------------------------------------

  /** What a card tile says about its next review. */
  datatype Due =
    | NewCard
    | Overdue
    | UnderAnHour
    | InAnHour
    | InHours(hours: nat)
    | InDaysHours(days: nat, hours: nat)
    | InMonths(months: nat)
    | InDays(days: nat)

  /** The object `formatNextReview` returns; an absent flag reads as false. */
  datatype Shown = Shown(text: string, isOverdue: bool, isNew: bool)

  const NewText := "Новая"
  const OverdueText := "На повторение"
  const UnderAnHourText := "Менее часа"
  const InAnHourText := "Через час"
  const Prefix := "Через "

  function Text(due: Due): (text: string)
  {
    match due
    case NewCard => NewText
    case Overdue => OverdueText
    case UnderAnHour => UnderAnHourText
    case InAnHour => InAnHourText
    case InHours(h) => Counted(h, " " + HoursWord(h))
    case InDaysHours(d, h) => Counted(d, " " + DaysWord(d) + " " + Decimal(h) + " " + HoursWord(h))
    case InMonths(m) => Counted(m, " " + MonthsWord(m))
    case InDays(d) => Counted(d, " " + DaysWord(d))
  }

  /** The template `Через ${n}...`: the prefix, the number, then the rest. */
  function Counted(n: nat, rest: string): (text: string)
  {
    Prefix + Decimal(n) + rest
  }

  lemma PrefixThenDigit(n: nat, rest: string)
    ensures |Counted(n, rest)| > |Prefix| && Counted(n, rest)[..|Prefix|] == Prefix
    ensures '0' <= Counted(n, rest)[|Prefix|] <= '9'
  {
    assert Counted(n, rest)[|Prefix|] == Decimal(n)[0];
  }

  /** Every counted text starts "Через " followed by a digit. */
  lemma CountedTextShape(due: Due)
    requires due.InHours? || due.InDaysHours? || due.InMonths? || due.InDays?
    ensures |Text(due)| > |Prefix| && Text(due)[..|Prefix|] == Prefix
    ensures '0' <= Text(due)[|Prefix|] <= '9'
  {
    match due
    case InHours(h) => PrefixThenDigit(h, " " + HoursWord(h));
    case InDaysHours(d, h) =>
      PrefixThenDigit(d, " " + DaysWord(d) + " " + Decimal(h) + " " + HoursWord(h));
    case InMonths(m) => PrefixThenDigit(m, " " + MonthsWord(m));
    case InDays(d) => PrefixThenDigit(d, " " + DaysWord(d));
  }

  /** The fixed texts each name exactly one outcome, so the shown text determines it. */
  lemma FixedTextsAreDistinct(due: Due)
    ensures Text(due) == NewText <==> due == NewCard
    ensures Text(due) == OverdueText <==> due == Overdue
    ensures Text(due) == UnderAnHourText <==> due == UnderAnHour
    ensures Text(due) == InAnHourText <==> due == InAnHour
  {
    if due.InHours? || due.InDaysHours? || due.InMonths? || due.InDays? {
      CountedTextShape(due);
      assert Text(due)[0] == Prefix[0];
      assert InAnHourText[|Prefix|] == 'ч';
    }
  }

  /** The shown object of an outcome; only the overdue outcome is flagged overdue. */
  function ShownOf(due: Due): (shown: Shown)
  {
    Shown(Text(due), due == Overdue, due == NewCard)
  }
}
