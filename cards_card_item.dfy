/**
 * The card tile of src/components/cards/CardItem.js, the later revision:
 * a new card short-circuits to a fixed label and a neutral colour, and the
 * time-until-review ladder counts days first, switching to hours only
 * within one day. The band and plural helpers of this file are the same as
 * the earlier revision's and are the ones in CardFormat.
 */
module CardsCardItem {
  import opened CardFormat
  import CardItem

  const NeutralColor := "var(--text-color-light)"

  /** `getDifficultyColor(difficulty, isNew)`. */
  function CardColor(difficulty: real, isNew: bool): (r: string)
    ensures isNew ==> r == NeutralColor
    ensures !isNew ==> r == DifficultyColor(difficulty)
    ensures r == SuccessColor <==> !isNew && difficulty < 0.6
    ensures r == WarningColor <==> !isNew && 0.6 <= difficulty <= 2.5
    ensures r == ErrorColor <==> !isNew && 2.5 < difficulty
  {
    if isNew then NeutralColor
    else if difficulty < 0.6 then SuccessColor
    else if difficulty <= 2.5 then WarningColor
    else ErrorColor
  }

  /** The days-first ladder of a card that is not new, on `diff = nextReview - now`. */
  function DaysFirst(diff: int): (r: Due)
    ensures r != NewCard
    ensures r == Overdue <==> diff < 0
    ensures r.InDays? <==> MsPerDay < diff
    ensures r.InDays? ==> r.days >= 2 && r.days == CeilDiv(diff, MsPerDay)
    ensures r == UnderAnHour <==> diff == 0
    ensures r == InAnHour <==> 0 < diff <= MsPerHour
    ensures r.InHours? <==> MsPerHour < diff <= MsPerDay
    ensures r.InHours? ==> 2 <= r.hours <= 24 && r.hours == CeilDiv(diff, MsPerHour)
    ensures !r.InMonths? && !r.InDaysHours?
  {
    var diffDays := CeilDiv(diff, MsPerDay);
    var diffHours := CeilDiv(diff, MsPerHour);
    CeilDivAtMost(diff, MsPerDay, 1);
    CeilDivAtMost(diff, MsPerHour, 0);
    CeilDivAtMost(diff, MsPerHour, 1);
    CeilDivAtMost(diff, MsPerHour, 24);
    if diff < 0 then Overdue
    else if diffDays > 1 then InDays(diffDays)
    else if diffHours == 0 then UnderAnHour
    else if diffHours == 1 then InAnHour
    else InHours(diffHours)
  }

  /**
   * `formatNextReview(nextReview, isNew)` at the instant `now`. A new card
   * gets the fixed label whatever its review time.
   */
  function FormatNextReview(nextReview: int, now: int, isNew: bool): (r: Shown)
    ensures isNew ==> r == Shown(NewText, false, true)
    ensures r.isNew <==> isNew
    ensures r.isOverdue <==> !isNew && nextReview < now
    ensures r.text == OverdueText <==> !isNew && nextReview < now
    ensures r.text == UnderAnHourText <==> !isNew && nextReview == now
    ensures r.text == InAnHourText <==> !isNew && now < nextReview <= now + MsPerHour
  {
    if isNew then ShownOf(NewCard)
    else
      var due := DaysFirst(nextReview - now);
      FixedTextsAreDistinct(due);
      ShownOf(due)
  }

  /** Both revisions say the same thing about an overdue card, or one due within the hour. */
  lemma RevisionsAgreeWithinTheHour(diff: int)
    requires diff <= MsPerHour
    ensures DaysFirst(diff) == CardItem.HoursFirst(diff)
  {
  }

  /** Between two and fifty-nine days away both revisions show the same day count. */
  lemma RevisionsAgreeOnDays(diff: int)
    requires 2 * MsPerDay < diff <= 59 * MsPerDay
    ensures DaysFirst(diff) == CardItem.HoursFirst(diff)
  {
  }

  /** Between one and two days away the later revision shows days, the earlier hours. */
  lemma RevisionsDisagreeOnTheSecondDay(diff: int)
    requires MsPerDay < diff <= 2 * MsPerDay
    ensures DaysFirst(diff) == InDays(2)
    ensures CardItem.HoursFirst(diff).InDaysHours?
  {
  }

  /**
   * Half an hour before the review both revisions say "Через час": the hour
   * count is rounded up, so "Менее часа" is reserved for the exact instant.
   */
  lemma HalfHourBeforeSaysInAnHour(now: int)
    ensures CardItem.FormatNextReview(now + 30 * 60 * 1000, now).text == InAnHourText
    ensures FormatNextReview(now + 30 * 60 * 1000, now, false).text == InAnHourText
    ensures CardItem.FormatNextReview(now + 30 * 60 * 1000, now).text != UnderAnHourText
  {
  }
}
