/** `formatDate`: how long ago a moment was, as a short relative text, or
    the locale date once a week has passed. Times are integer milliseconds;
    the current time is a parameter. */
module FormatDate {
  import opened Common

  const MinuteMs := 60000
  const HourMs := 3600000
  const DayMs := 86400000

  /** The result: a relative text, or the `toLocaleDateString` rendering of
      the date, which is left abstract and represented by the date itself. */
  datatype DateText = Relative(text: string) | LocaleDate(date: int)

  const JustNow := "just now"

  /** " {n}{unit} ago", with the leading space the template writes. */
  function AgoText(n: nat, unit: char): string {
    " " + NatToString(n) + [unit] + " ago"
  }

  /** `formatDate(date)` at time `now`. `Math.floor` of a quotient by a
      positive divisor is Dafny's `/`, so a negative difference gives a
      negative count and "just now". */
  function FormatDate(date: int, now: int): (r: DateText)
    ensures r.LocaleDate? ==> r.date == date
  {
    var diff := now - date;
    var minutes := diff / MinuteMs;
    var hours := diff / HourMs;
    var days := diff / DayMs;
    if minutes < 1 then Relative(JustNow)
    else if minutes < 60 then Relative(AgoText(minutes, 'm'))
    else if hours < 24 then Relative(AgoText(hours, 'h'))
    else if days < 7 then Relative(AgoText(days, 'd'))
    else LocaleDate(date)
  }

  function UnitMs(unit: char): nat {
    if unit == 'm' then MinuteMs else if unit == 'h' then HourMs else DayMs
  }

  /** Reads a relative text back: the count and the unit letter, when the
      text has the " {digits}{unit} ago" shape. */
  function ReadAgo(text: string): Option<(nat, char)> {
    if |text| < 7 || text[0] != ' ' || text[|text| - 4..] != " ago" then None
    else
      var digits := text[1..|text| - 5];
      if digits == [] || !AllDigits(digits) then None
      else Some((DecimalValue(digits), text[|text| - 5]))
  }

  /** Reading the text back gives the count and unit that were written. */
  lemma AgoTextRoundTrip(n: nat, unit: char)
    ensures ReadAgo(AgoText(n, unit)) == Some((n, unit))
  {
    var t := AgoText(n, unit);
    var s := NatToString(n);
    assert t[1..|t| - 5] == s;
    assert t[|t| - 5] == unit;
    assert t[|t| - 4..] == " ago";
    DecimalRoundTrip(n);
  }

  /** Floor division by a positive divisor brackets the dividend. */
  lemma FloorBounds(x: int, d: int)
    requires d > 0
    ensures d * (x / d) <= x < d * (x / d) + d
  {
  }

  /** "just now" exactly below one minute, including any negative
      difference; the locale date exactly from seven days on. */
  lemma FormatDateEnds(date: int, now: int)
    ensures FormatDate(date, now) == Relative(JustNow) <==> now - date < MinuteMs
    ensures FormatDate(date, now).LocaleDate? <==> now - date >= 7 * DayMs
  {
    var diff := now - date;
    FloorBounds(diff, MinuteMs);
    FloorBounds(diff, HourMs);
    FloorBounds(diff, DayMs);
    var r := FormatDate(date, now);
    if diff >= MinuteMs && r.Relative? {
      assert r.text[0] == ' ' != JustNow[0];
    }
  }

  /** A count read back from a text written for `diff` in unit `unit` is the
      number of whole units in `diff`. */
  lemma WholeUnits(diff: int, unit: char)
    requires diff >= UnitMs(unit)
    ensures ReadAgo(AgoText(diff / UnitMs(unit), unit)) == Some((diff / UnitMs(unit), unit))
    ensures var n := diff / UnitMs(unit); n >= 1 && n * UnitMs(unit) <= diff < (n + 1) * UnitMs(unit)
  {
    var d := UnitMs(unit);
    FloorBounds(diff, d);
    AgoTextRoundTrip(diff / d, unit);
  }

  /** Between one minute and seven days, the text reports the number of
      whole units elapsed, in the largest unit that fits: minutes below an
      hour, hours below a day, days below a week. This is stated on the
      difference itself, not on the floored quotients. */
  lemma FormatDateCounts(date: int, now: int)
    requires MinuteMs <= now - date < 7 * DayMs
    ensures var diff := now - date;
      var r := FormatDate(date, now);
      && r.Relative?
      && ReadAgo(r.text).Some?
      && var (n, unit) := ReadAgo(r.text).value;
         && n >= 1
         && n * UnitMs(unit) <= diff < (n + 1) * UnitMs(unit)
         && (unit == 'm' <==> diff < HourMs)
         && (unit == 'h' <==> HourMs <= diff < DayMs)
         && (unit == 'd' <==> DayMs <= diff)
  {
    var diff := now - date;
    FloorBounds(diff, MinuteMs);
    FloorBounds(diff, HourMs);
    FloorBounds(diff, DayMs);
    var unit := if diff < HourMs then 'm' else if diff < DayMs then 'h' else 'd';
    assert FormatDate(date, now) == Relative(AgoText(diff / UnitMs(unit), unit));
    WholeUnits(diff, unit);
  }

  /** The relative text only grows coarser with time: a later moment is
      never reported in a finer unit. */
  lemma UnitsCoarsen(date: int, now1: int, now2: int)
    requires MinuteMs <= now1 - date <= now2 - date < 7 * DayMs
    ensures var r1 := FormatDate(date, now1);
      var r2 := FormatDate(date, now2);
      ReadAgo(r1.text).Some? && ReadAgo(r2.text).Some? &&
      UnitMs(ReadAgo(r1.text).value.1) <= UnitMs(ReadAgo(r2.text).value.1)
  {
    FormatDateCounts(date, now1);
    FormatDateCounts(date, now2);
  }
}
