/**
 * The card tile of src/components/CardItem.js: the hours-first ladder that
 * turns the time until the next review into text. Within two days it counts
 * hours (and whole days of them), from 60 days on it counts months, and in
 * between it counts days. Times are integer milliseconds.
 */
module CardItem {
  import opened CardFormat

  /**
   * The ladder of `formatNextReview`, on `diff = nextReview - now`.
   * Every branch is characterised by the range of `diff` it covers.
   */
  function HoursFirst(diff: int): (r: Due)
    ensures r != NewCard
    ensures r == Overdue <==> diff < 0
    ensures r == UnderAnHour <==> diff == 0
    ensures r == InAnHour <==> 0 < diff <= MsPerHour
    ensures (r.InHours? || r.InDaysHours?) <==> MsPerHour < diff <= 2 * MsPerDay
    ensures r.InMonths? <==> 59 * MsPerDay < diff
    ensures r.InDays? <==> 2 * MsPerDay < diff <= 59 * MsPerDay
  {
    var diffDays := CeilDiv(diff, MsPerDay);
    var diffHours := CeilDiv(diff, MsPerHour);
    var diffMonths := FloorDiv(diffDays, 30);
    Thresholds(diff);
    if diff < 0 then Overdue
    else if diffDays <= 2 then
      if diffHours == 0 then UnderAnHour
      else if diffHours == 1 then InAnHour
      else HourSplit(diffHours)
    else if diffMonths >= 2 then InMonths(diffMonths)
    else InDays(diffDays)
  }

  /** Where the rounded-up counts of HoursFirst cross its thresholds, in terms of diff. */
  lemma Thresholds(diff: int)
    ensures CeilDiv(diff, MsPerDay) <= 2 <==> diff <= 2 * MsPerDay
    ensures FloorDiv(CeilDiv(diff, MsPerDay), 30) >= 2 <==> 59 * MsPerDay < diff
    ensures 0 <= diff ==> 0 <= CeilDiv(diff, MsPerHour)
    ensures CeilDiv(diff, MsPerHour) <= 0 <==> diff <= 0
    ensures CeilDiv(diff, MsPerHour) <= 1 <==> diff <= MsPerHour
  {
    CeilDivAtMost(diff, MsPerDay, 2);
    CeilDivAtMost(diff, MsPerDay, 59);
    CeilDivAtMost(diff, MsPerHour, 0);
    CeilDivAtMost(diff, MsPerHour, 1);
    CeilDivAtMost(diff, MsPerHour, -1);
  }

  /**
   * The hour branch for a rounded-up hour count of two or more: whole days
   * of 24 hours and the hours left over, with the days left out when none.
   */
  function HourSplit(diffHours: int): (r: Due)
    requires diffHours >= 2
    ensures r.InHours? || r.InDaysHours?
    ensures r.InHours? ==> r.hours == diffHours < 24
    ensures r.InDaysHours? ==> 1 <= r.days && r.days * 24 + r.hours == diffHours && 0 <= r.hours < 24
  {
    var hours := diffHours % 24;
    var days := diffHours / 24;
    if days == 0 then InHours(hours) else InDaysHours(days, hours)
  }

  /**
   * In the hour branch the shown days and hours add back up to the
   * rounded-up hour count, with at most two days; with no whole day the
   * hour count is 2 to 23.
   */
  lemma HourBranchSplitsHours(diff: int)
    requires HoursFirst(diff).InHours? || HoursFirst(diff).InDaysHours?
    ensures var r := HoursFirst(diff);
            var days := if r.InHours? then 0 else r.days;
            days * 24 + r.hours == CeilDiv(diff, MsPerHour)
            && days <= 2 && r.hours < 24
            && (r.InHours? ==> 2 <= r.hours)
            && (r.InDaysHours? ==> 1 <= r.days)
  {
  }

  /** Months are shown only from 60 rounded-up days on, and are at least two. */
  lemma MonthsOnlyFromSixtyDays(diff: int)
    ensures HoursFirst(diff).InMonths? <==> CeilDiv(diff, MsPerDay) >= 60
    ensures HoursFirst(diff).InMonths? ==>
              HoursFirst(diff).months == CeilDiv(diff, MsPerDay) / 30 >= 2
  {
  }

  /** The fallback day count is the rounded-up day count, always 3 to 59. */
  lemma DaysBetweenThreeAndFiftyNine(diff: int)
    requires HoursFirst(diff).InDays?
    ensures HoursFirst(diff).days == CeilDiv(diff, MsPerDay)
    ensures 3 <= HoursFirst(diff).days <= 59
  {
  }

  /** `formatNextReview(nextReview)` evaluated at the instant `now`. */
  function FormatNextReview(nextReview: int, now: int): (r: Shown)
    ensures r.isOverdue <==> nextReview < now
    ensures r.isOverdue <==> r.text == OverdueText
    ensures r.text == UnderAnHourText <==> nextReview == now
    ensures r.text == InAnHourText <==> now < nextReview <= now + MsPerHour
    ensures !r.isNew
  {
    var due := HoursFirst(nextReview - now);
    FixedTextsAreDistinct(due);
    ShownOf(due)
  }
}
