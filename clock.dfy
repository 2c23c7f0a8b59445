/**
  The spoken clock reading: `strftime("%I:%M %p")` on the current local time.
  The hour and minute are inputs; reading the system clock is not modelled.
 */
module Clock {
  import opened Wrappers

  /** An hour of the 24-hour day, as `datetime` supplies it. */
  type Hour = h: int | 0 <= h < 24

  /** A minute of the hour, as `datetime` supplies it. */
  type Minute = m: int | 0 <= m < 60

  predicate IsDigit(c: char) { '0' <= c <= '9' }

  function Digit(d: int): (c: char)
    requires 0 <= d < 10
    ensures IsDigit(c)
  {
    ('0' as int + d) as char
  }

  function DigitValue(c: char): (d: int)
    requires IsDigit(c)
    ensures 0 <= d < 10 && Digit(d) == c
  {
    c as int - '0' as int
  }

  /** A zero-padded two-digit field, as `%I` and `%M` print. */
  function Pad2(n: int): (r: string)
    requires 0 <= n < 100
    ensures |r| == 2 && IsDigit(r[0]) && IsDigit(r[1])
    ensures 10 * DigitValue(r[0]) + DigitValue(r[1]) == n
  {
    [Digit(n / 10), Digit(n % 10)]
  }

  /** Reads a two-digit field back; `None` unless it is exactly two digits. */
  function ReadPad2(s: string): (r: Option<int>)
    ensures r.Some? <==> |s| == 2 && IsDigit(s[0]) && IsDigit(s[1])
    ensures r.Some? ==> 0 <= r.value < 100
  {
    if |s| == 2 && IsDigit(s[0]) && IsDigit(s[1])
    then Some(10 * DigitValue(s[0]) + DigitValue(s[1]))
    else None
  }

  /** Padding and reading a two-digit field are inverse to each other. */
  lemma Pad2RoundTrip(n: int, s: string)
    requires 0 <= n < 100
    ensures ReadPad2(Pad2(n)) == Some(n)
    ensures ReadPad2(s) == Some(n) ==> Pad2(n) == s
  {
    if ReadPad2(s) == Some(n) {
      var d0, d1 := DigitValue(s[0]), DigitValue(s[1]);
      assert n / 10 == d0 && n % 10 == d1;
    }
  }

  /** `%I`: the hour on the 12-hour clock, where midnight and noon read 12. */
  function Hour12(h: Hour): (r: int)
    ensures 1 <= r <= 12
    ensures r % 12 == h % 12
  {
    if h % 12 == 0 then 12 else h % 12
  }

  /** `%p` in the C locale. */
  function Meridiem(h: Hour): (r: string)
    ensures r == "AM" <==> h < 12
    ensures r == "PM" <==> 12 <= h
  {
    if h < 12 then "AM" else "PM"
  }

  /** A reading laid out from its hour field, minute field and suffix. */
  function Layout(hh: string, mm: string, suffix: string): (r: string)
    requires |hh| == 2 && |mm| == 2 && |suffix| == 2
    ensures |r| == 8 && r[2] == ':' && r[5] == ' '
    ensures r[..2] == hh && r[3..5] == mm && r[6..] == suffix
  {
    hh + ":" + mm + " " + suffix
  }

  /** Every eight-character string with ':' and ' ' in their places is laid out
      from its three fields. */
  lemma LayoutFields(s: string)
    requires |s| == 8 && s[2] == ':' && s[5] == ' '
    ensures s == Layout(s[..2], s[3..5], s[6..])
  {
  }

  /** `strftime("%I:%M %p")`: "HH:MM AM" or "HH:MM PM", naming the hour on the
      12-hour clock (01 to 12), the minute, and AM exactly before noon. Reading
      it back gives the 24-hour time again: the hour on the 12-hour clock and
      the suffix together determine the hour. */
  function FormatTime(h: Hour, m: Minute): (r: string)
    ensures |r| == 8 && r[2] == ':' && r[5] == ' '
    ensures ReadPad2(r[..2]) == Some(Hour12(h)) && ReadPad2(r[3..5]) == Some(m)
    ensures r[6..] == "AM" <==> h < 12
    ensures r[6..] == "PM" <==> 12 <= h
    ensures ParseTime(r) == Some((h, m))
  {
    Pad2RoundTrip(Hour12(h), []);
    Pad2RoundTrip(m, []);
    Layout(Pad2(Hour12(h)), Pad2(m), Meridiem(h))
  }

  /** Reads "HH:MM AM" / "HH:MM PM" back into the 24-hour hour and minute;
      `None` for anything `FormatTime` cannot produce. */
  function ParseTime(s: string): (r: Option<(Hour, Minute)>)
  {
    if |s| != 8 || s[2] != ':' || s[5] != ' ' then None
    else
      var hh, mm, suffix := ReadPad2(s[..2]), ReadPad2(s[3..5]), s[6..];
      if hh.Some? && mm.Some? && 1 <= hh.value <= 12 && mm.value < 60 && (suffix == "AM" || suffix == "PM")
      then Some((hh.value % 12 + (if suffix == "PM" then 12 else 0), mm.value))
      else None
  }

  /** Every reading that parses is the one `FormatTime` prints for the parsed
      time: the format is one-to-one, with no second spelling of a time. */
  lemma ParseTimeCanonical(s: string)
    requires ParseTime(s).Some?
    ensures FormatTime(ParseTime(s).value.0, ParseTime(s).value.1) == s
  {
    var (h, m) := ParseTime(s).value;
    var h12 := ReadPad2(s[..2]).value;
    assert Hour12(h) == h12;
    Pad2RoundTrip(h12, s[..2]);
    Pad2RoundTrip(m, s[3..5]);
    LayoutFields(s);
  }

  /** Midnight is twelve in the morning and noon twelve in the afternoon. */
  lemma MidnightAndNoon()
    ensures FormatTime(0, 0) == "12:00 AM"
    ensures FormatTime(12, 0) == "12:00 PM"
  {
  }
}
