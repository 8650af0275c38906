/**
 * `formatDateTime` from lib/utils.ts, taking the calendar fields the `Date`
 * object would report (day of month, zero-based month, year, hours 0..23,
 * minutes 0..59). Its partner is `ParseDateTime`, which reads those fields back.
 */
module DateFormat {
  import opened Wrappers
  import Text

  const Months: seq<string> :=
    ["Jan", "Feb", "Mar", "Apr", "May", "Jun", "Jul", "Aug", "Sep", "Oct", "Nov", "Dec"]

  /** The hour shown on a 12-hour clock and its suffix, for a 24-hour value. */
  function To12Hour(hours: nat): (r: (nat, string))
    requires hours < 24
    ensures 1 <= r.0 <= 12
    ensures r.1 == "AM" <==> hours < 12
    ensures r.1 == "AM" || r.1 == "PM"
    ensures From12Hour(r.0, r.1) == hours
  {
    var ampm := if hours >= 12 then "PM" else "AM";
    var h := hours % 12;
    (if h != 0 then h else 12, ampm)
  }

  /** Back from the 12-hour clock: 12 AM is hour 0 and 12 PM is hour 12. */
  function From12Hour(h: nat, suffix: string): nat
  {
    h % 12 + (if suffix == "PM" then 12 else 0)
  }

  /** Midnight shows as 12 AM and noon as 12 PM. */
  lemma MidnightAndNoon()
    ensures To12Hour(0) == (12, "AM")
    ensures To12Hour(12) == (12, "PM")
  {
  }

  /** `getMinutes().toString().padStart(2, '0')`: always two digits that read back as `minutes`. */
  function Minutes2(minutes: nat): (r: string)
    requires minutes < 60
    ensures |r| == 2
    ensures forall i :: 0 <= i < 2 ==> Text.IsDigit(r[i])
    ensures Text.DigitsValue(r) == minutes
  {
    var s := Text.NatToString(minutes);
    if minutes < 10 then
      assert s == [Text.DigitChar(minutes)];
      var r := Text.PadStart2(s);
      assert r == "0" + s;
      assert r[..1] == "0" && r[1] == Text.DigitChar(minutes);
      assert Text.DigitsValue("0") == 0 by { assert "0"[..0] == ""; }
      r
    else
      Text.NatToStringLength(minutes, 1);
      Text.NatToStringRoundTrip(minutes);
      Text.PadStart2(s)
  }

  /**
   * The string `${day} ${month} ${year} ${hours}:${minutes} ${ampm}`: the five
   * fields separated by single spaces, the time being hours and minutes around a colon.
   * No field contains a space, so the text splits back into exactly those fields.
   */
  function FormatDateTime(day: nat, month: nat, year: nat, hours: nat, minutes: nat): (r: string)
    requires month < 12 && hours < 24 && minutes < 60
    ensures Text.Split(r, ' ') == Fields(day, month, year, hours, minutes)
  {
    FieldsSplit(day, month, year, hours, minutes);
    Text.Join(Fields(day, month, year, hours, minutes), " ")
  }

  /** A non-empty string of decimal digits, read as a number. */
  function ParseNat(s: string): (r: Option<nat>)
    ensures r.Some? <==> s != [] && forall i :: 0 <= i < |s| ==> Text.IsDigit(s[i])
  {
    if s != [] && forall i :: 0 <= i < |s| ==> Text.IsDigit(s[i]) then Some(Text.DigitsValue(s)) else None
  }

  /** The zero-based position of a month abbreviation, searching from `k`. */
  function MonthIndexFrom(name: string, k: nat): (r: Option<nat>)
    requires k <= 12
    ensures r.Some? ==> k <= r.value < 12 && Months[r.value] == name
    ensures r.Some? ==> forall j :: k <= j < r.value ==> Months[j] != name
    ensures r.None? ==> forall j :: k <= j < 12 ==> Months[j] != name
    decreases 12 - k
  {
    if k == 12 then None
    else if Months[k] == name then Some(k)
    else MonthIndexFrom(name, k + 1)
  }

  /** Reads back a string in the layout `FormatDateTime` produces: (day, month, year, hours, minutes). */
  function ParseDateTime(s: string): Option<(nat, nat, nat, nat, nat)>
  {
    var parts := Text.Split(s, ' ');
    if |parts| != 5 || !(parts[4] == "AM" || parts[4] == "PM") then None
    else
      var time := Text.Split(parts[3], ':');
      if |time| != 2 then None
      else
        match (ParseNat(parts[0]), MonthIndexFrom(parts[1], 0), ParseNat(parts[2]), ParseNat(time[0]), ParseNat(time[1]))
        case (Some(d), Some(m), Some(y), Some(h), Some(mi)) => Some((d, m, y, From12Hour(h, parts[4]), mi))
        case _ => None
  }

  lemma MonthsDistinct()
    ensures forall i, j :: 0 <= i < j < 12 ==> Months[i] != Months[j]
    ensures forall i :: 0 <= i < 12 ==> ' ' !in Months[i]
  {
  }

  lemma ParseNatOfString(n: nat)
    ensures ParseNat(Text.NatToString(n)) == Some(n)
  {
    Text.NatToStringRoundTrip(n);
  }

  lemma DigitsHaveNoSeparator(s: string, c: char)
    requires forall i :: 0 <= i < |s| ==> Text.IsDigit(s[i])
    requires !Text.IsDigit(c)
    ensures c !in s
  {
  }

  /**
   * The five space-separated fields of the formatted text: the day, the month's
   * abbreviation, the year, the 12-hour time `h:mm` and the AM/PM suffix.
   */
  function Fields(day: nat, month: nat, year: nat, hours: nat, minutes: nat): (parts: seq<string>)
    requires month < 12 && hours < 24 && minutes < 60
    ensures |parts| == 5
    ensures parts[1] in Months && (parts[4] == "AM" || parts[4] == "PM")
    ensures Text.Split(parts[3], ':') == [Text.NatToString(To12Hour(hours).0), Minutes2(minutes)]
  {
    var (h, ampm) := To12Hour(hours);
    TimeSplit(h, minutes);
    [Text.NatToString(day), Months[month], Text.NatToString(year), Text.Join([Text.NatToString(h), Minutes2(minutes)], ":"), ampm]
  }

  lemma FieldsSplit(day: nat, month: nat, year: nat, hours: nat, minutes: nat)
    requires month < 12 && hours < 24 && minutes < 60
    ensures Text.Split(Text.Join(Fields(day, month, year, hours, minutes), " "), ' ') == Fields(day, month, year, hours, minutes)
  {
    var parts := Fields(day, month, year, hours, minutes);
    MonthsDistinct();
    DigitsHaveNoSeparator(parts[0], ' ');
    DigitsHaveNoSeparator(parts[2], ' ');
    var (h, _) := To12Hour(hours);
    TimeHasNoSpace(h, minutes);
    Text.SplitJoin(parts, ' ');
  }

  lemma TimeHasNoSpace(h: nat, minutes: nat)
    requires minutes < 60
    ensures ' ' !in Text.Join([Text.NatToString(h), Minutes2(minutes)], ":")
  {
    var hS, mm := Text.NatToString(h), Minutes2(minutes);
    assert Text.Join([hS, mm], ":") == hS + (":" + mm);
    DigitsHaveNoSeparator(hS, ' ');
    DigitsHaveNoSeparator(mm, ' ');
  }

  lemma TimeSplit(h: nat, minutes: nat)
    requires minutes < 60
    ensures Text.Split(Text.Join([Text.NatToString(h), Minutes2(minutes)], ":"), ':') == [Text.NatToString(h), Minutes2(minutes)]
  {
    DigitsHaveNoSeparator(Text.NatToString(h), ':');
    DigitsHaveNoSeparator(Minutes2(minutes), ':');
    Text.SplitJoin([Text.NatToString(h), Minutes2(minutes)], ':');
  }

  /** The formatted text reads back as the fields it was made from. */
  lemma FormatThenParse(day: nat, month: nat, year: nat, hours: nat, minutes: nat)
    requires month < 12 && hours < 24 && minutes < 60
    ensures ParseDateTime(FormatDateTime(day, month, year, hours, minutes)) == Some((day, month, year, hours, minutes))
  {
    var (h, ampm) := To12Hour(hours);
    ParseNatOfString(day);
    ParseNatOfString(year);
    ParseNatOfString(h);
    MonthsDistinct();
    assert MonthIndexFrom(Months[month], 0) == Some(month);
  }
}
