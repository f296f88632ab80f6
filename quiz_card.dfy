/**
 * The quiz card on the home page: the time-left label, the width of the
 * participation bar and what "Play Now" does.
 */
module QuizCard {
  import opened Wrappers
  import opened Refs
  import opened Decimal
  import opened QuizModel
  import opened QuizRoutes

  const HourMs: int := 1000 * 60 * 60
  const DayMs: int := 1000 * 60 * 60 * 24

  /** The quotient rounded up, for a positive divisor. */
  function CeilDiv(a: int, b: int): (r: int)
    requires b > 0
    ensures (r - 1) * b < a <= r * b
  {
    -((-a) / b)
  }

  datatype TimeLeftLabel = DaysLeft(days: int) | OneDayLeft | HoursLeft(hours: int) | EndingSoon

  function LabelText(l: TimeLeftLabel): string {
    match l
    case DaysLeft(n) => IntToString(n) + " days left"
    case OneDayLeft => "1 day left"
    case HoursLeft(n) => IntToString(n) + " hours left"
    case EndingSoon => "Ending soon"
  }

  // ---------------------------------------------------------------------
  // The label as the card computes it

  /** The card's time-left label, with `diff` the milliseconds from now to the end date. */
  function TimeLeft(diff: int): (r: TimeLeftLabel)
    ensures r.DaysLeft? ==> r.days > 1
    ensures r.DaysLeft? ==> (r.days - 1) * DayMs < diff <= r.days * DayMs
  {
    var diffDays := CeilDiv(diff, DayMs);
    if diffDays > 1 then DaysLeft(diffDays)
    else if diffDays == 1 then OneDayLeft
    else
      var diffHours := CeilDiv(diff, HourMs);
      if diffHours > 0 then HoursLeft(diffHours) else EndingSoon
  }

  /**
   * What the card shows, by the time remaining: more than a day gives the
   * rounded-up day count, anything up to a day "1 day left", and a past end
   * "Ending soon". The hour count is never shown.
   */
  lemma TimeLeftCases(diff: int)
    ensures TimeLeft(diff).DaysLeft? <==> diff > DayMs
    ensures TimeLeft(diff).DaysLeft? ==>
              (TimeLeft(diff).days - 1) * DayMs < diff <= TimeLeft(diff).days * DayMs
    ensures TimeLeft(diff) == OneDayLeft <==> 0 < diff <= DayMs
    ensures TimeLeft(diff) == EndingSoon <==> diff <= 0
    ensures !TimeLeft(diff).HoursLeft?
  {
    var d := CeilDiv(diff, DayMs);
    if d <= 0 {
      assert diff <= 0;
      var h := CeilDiv(diff, HourMs);
      assert (h - 1) * HourMs < diff;
    }
  }

  /** Two hours before the end the card says "1 day left". */
  lemma TwoHoursShowsOneDay()
    ensures TimeLeft(2 * HourMs) == OneDayLeft
    ensures LabelText(TimeLeft(2 * HourMs)) == "1 day left"
  {
    TimeLeftCases(2 * HourMs);
  }

  // ---------------------------------------------------------------------
  // The label with whole days counted down, so that the last day shows hours

  function TimeLeftByWholeDays(diff: int): (r: TimeLeftLabel)
  {
    var days := diff / DayMs;
    if days > 1 then DaysLeft(days)
    else if days == 1 then OneDayLeft
    else
      var hours := CeilDiv(diff, HourMs);
      if hours > 0 then HoursLeft(hours) else EndingSoon
  }

  /**
   * The corrected label: whole days while at least two remain, "1 day left"
   * on the second-to-last day, the rounded-up hour count (1 to 24) within
   * the last day, and "Ending soon" once the end has passed.
   */
  lemma TimeLeftByWholeDaysCases(diff: int)
    ensures TimeLeftByWholeDays(diff).DaysLeft? <==> diff >= 2 * DayMs
    ensures TimeLeftByWholeDays(diff).DaysLeft? ==>
              var n := TimeLeftByWholeDays(diff).days; n * DayMs <= diff < (n + 1) * DayMs
    ensures TimeLeftByWholeDays(diff) == OneDayLeft <==> DayMs <= diff < 2 * DayMs
    ensures TimeLeftByWholeDays(diff).HoursLeft? <==> 0 < diff < DayMs
    ensures TimeLeftByWholeDays(diff).HoursLeft? ==>
              var h := TimeLeftByWholeDays(diff).hours; 1 <= h <= 24 && (h - 1) * HourMs < diff <= h * HourMs
    ensures TimeLeftByWholeDays(diff) == EndingSoon <==> diff <= 0
  {
    var days := diff / DayMs;
    if days <= 0 {
      var h := CeilDiv(diff, HourMs);
      if 0 < diff < DayMs {
        assert h * HourMs < diff + HourMs <= 25 * HourMs;
      }
    }
  }

  /** The corrected label and the card agree whenever at least two days remain. */
  lemma LabelsAgreeFromTwoDays(diff: int)
    requires diff >= 2 * DayMs && diff % DayMs == 0
    ensures TimeLeftByWholeDays(diff) == TimeLeft(diff)
  {
    TimeLeftCases(diff);
    TimeLeftByWholeDaysCases(diff);
  }

  /** A quiz offered in the listing has not passed its end, so it never reads "Ending soon". */
  lemma ListedQuizNotEndingSoon(q: Quiz, now: int)
    requires Live(q, now)
    ensures TimeLeftByWholeDays(q.endDate - now) != EndingSoon
    ensures TimeLeft(q.endDate - now) != EndingSoon
  {
    TimeLeftCases(q.endDate - now);
    TimeLeftByWholeDaysCases(q.endDate - now);
  }

  // ---------------------------------------------------------------------
  // Participation bar

  /**
   * The bar's width: the server's rounded percentage
   * unless it is missing or zero, then the exact ratio.
   */
  function ProgressWidth(progress: Option<int>, current: int, max: int): (r: real)
    requires max >= 1
    ensures progress.Some? && progress.value != 0 ==> r == progress.value as real
    ensures progress.None? || progress.value == 0 ==> r * max as real == current as real * 100.0
  {
    if progress.Some? && progress.value != 0 then progress.value as real
    else (current as real / max as real) * 100.0
  }

  lemma RealOfProduct(a: int, b: int)
    ensures (a * b) as real == a as real * b as real
  {
  }

  lemma ScaleDown(a: real, b: real, m: real)
    requires m > 0.0 && a * m <= b * m
    ensures a <= b
  {
  }

  lemma ScaleDownStrict(a: real, b: real, m: real)
    requires m > 0.0 && a * m < b * m
    ensures a < b
  {
  }

  /** With the server's virtual in the card, the bar is within half a percent of the exact share. */
  lemma ProgressWidthNearExact(current: int, max: int)
    requires max >= 1
    ensures var exact := (current as real / max as real) * 100.0;
            var w := ProgressWidth(Some(Progress(current, max)), current, max);
            exact - 0.5 <= w <= exact + 0.5
  {
    var p := Progress(current, max);
    var m := max as real;
    var c := current as real;
    var exact := (c / m) * 100.0;
    assert exact * m == 100.0 * c;
    if p != 0 {
      var pr := p as real;
      RealOfProduct(max, p);
      var mp := m * pr;
      assert 2 * max * p - max <= 200 * current < 2 * max * p + max;
      assert 2.0 * mp - m <= 200.0 * c < 2.0 * mp + m;
      assert (pr - 0.5) * m == mp - 0.5 * m;
      assert (pr + 0.5) * m == mp + 0.5 * m;
      ScaleDown(pr - 0.5, exact, m);
      ScaleDownStrict(exact, pr + 0.5, m);
    }
  }

  // ---------------------------------------------------------------------
  // Play Now

  datatype PlayAction = Navigate(path: string) | CallOnJoin | NoAction

  /** The page of one quiz. */
  function QuizPath(id: QuizId): string {
    "/quiz/" + NatToString(id)
  }

  /** `handlePlayNow`: a signed-in player goes to the quiz page, anyone else to the join prompt if the card has one. */
  function PlayNow(isAuthenticated: bool, hasOnJoin: bool, id: QuizId): (r: PlayAction)
    ensures r.Navigate? <==> isAuthenticated
    ensures r == CallOnJoin <==> !isAuthenticated && hasOnJoin
    ensures r == NoAction <==> !isAuthenticated && !hasOnJoin
  {
    if isAuthenticated then Navigate(QuizPath(id))
    else if hasOnJoin then CallOnJoin
    else NoAction
  }

  /** The path Play Now opens names the card's quiz, and no other. */
  lemma PlayNowPathNamesQuiz(hasOnJoin: bool, id: QuizId)
    ensures var r := PlayNow(true, hasOnJoin, id);
            |r.path| > 6 && r.path[..6] == "/quiz/" && ParseNat(r.path[6..]) == Some(id)
  {
    var p := QuizPath(id);
    assert p[6..] == NatToString(id);
    ParseNatToString(id);
  }
}
