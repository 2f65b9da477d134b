/**
 * Local wall-clock instants and the `%H:%M:%S` rendering both server
 * modules use. An instant is a count of seconds in the server's local time
 * zone (the conversion done by `timezone.localtime` is taken as already
 * applied), so its calendar day is a plain day number.
 */
module TimeFormat {
  import opened Wire

  const SecondsPerDay: int := 86400

  /** The local calendar day of an instant (`.date()`), as a day number. */
  function DayOf(t: int): int {
    t / SecondsPerDay
  }

  /** The day number is that of the day containing the instant. */
  lemma {:induction false} DayBounds(t: int)
    ensures DayOf(t) * SecondsPerDay <= t < (DayOf(t) + 1) * SecondsPerDay
  {
  }

  /** Seconds since local midnight. */
  function TimeOfDay(t: int): (sec: int)
    ensures 0 <= sec < SecondsPerDay
  {
    t % SecondsPerDay
  }

  lemma {:induction false} InstantSplit(t: int)
    ensures t == DayOf(t) * SecondsPerDay + TimeOfDay(t)
  {
  }

  function Digit(d: int): char
    requires 0 <= d < 10
  {
    "0123456789"[d]
  }

  function DigitValue(c: char): (d: Option<int>)
    ensures d.Some? ==> 0 <= d.value < 10
  {
    if '0' <= c <= '9' then Some(c as int - '0' as int) else None
  }

  lemma DigitRoundTrip(d: int)
    requires 0 <= d < 10
    ensures DigitValue(Digit(d)) == Some(d)
  {
    assert "0123456789"[d] as int == '0' as int + d by {
      if d == 0 {} else if d == 1 {} else if d == 2 {} else if d == 3 {} else if d == 4 {}
      else if d == 5 {} else if d == 6 {} else if d == 7 {} else if d == 8 {} else {}
    }
  }

  /** Two-digit, zero-padded decimal (`%H`, `%M`, `%S`). */
  function TwoDigits(n: int): (s: string)
    requires 0 <= n < 100
    ensures |s| == 2
  {
    [Digit(n / 10), Digit(n % 10)]
  }

  /** `strftime("%H:%M:%S")` of a time of day. */
  function Hms(sec: int): (s: string)
    requires 0 <= sec < SecondsPerDay
    ensures |s| == 8 && s[2] == ':' && s[5] == ':'
  {
    var minutes := sec / 60;
    TwoDigits(minutes / 60) + ":" + TwoDigits(minutes % 60) + ":" + TwoDigits(sec % 60)
  }

  /** Reads back a two-digit field. */
  function ParseTwo(a: char, b: char): (n: Option<int>)
    ensures n.Some? ==> 0 <= n.value < 100
  {
    match (DigitValue(a), DigitValue(b))
    case (Some(x), Some(y)) => Some(10 * x + y)
    case _ => None
  }

  /** The time of day `h:m:x`, in seconds. */
  function Seconds(h: int, m: int, x: int): int {
    (h * 60 + m) * 60 + x
  }

  /** The inverse of `Hms`: `HH:MM:SS` with hours below 24 and minutes and seconds below 60. */
  function ParseHms(s: string): (r: Option<int>)
    ensures r.Some? ==> 0 <= r.value < SecondsPerDay
  {
    if |s| != 8 || s[2] != ':' || s[5] != ':' then None
    else
      match (ParseTwo(s[0], s[1]), ParseTwo(s[3], s[4]), ParseTwo(s[6], s[7]))
      case (Some(h), Some(m), Some(x)) =>
        if h < 24 && m < 60 && x < 60 then Some(Seconds(h, m, x)) else None
      case _ => None
  }

  lemma TwoDigitsRoundTrip(n: int)
    requires 0 <= n < 100
    ensures ParseTwo(TwoDigits(n)[0], TwoDigits(n)[1]) == Some(n)
  {
    DigitRoundTrip(n / 10);
    DigitRoundTrip(n % 10);
  }

  lemma ClockArithmetic(sec: int)
    requires 0 <= sec < SecondsPerDay
    ensures sec / 60 / 60 < 24
    ensures Seconds(sec / 60 / 60, sec / 60 % 60, sec % 60) == sec
  {
    var q := sec / 60;
    assert sec == q * 60 + sec % 60;
    assert q == (q / 60) * 60 + q % 60;
    assert q < 1440;
  }

  lemma ParseFields(h: int, m: int, x: int)
    requires 0 <= h < 24 && 0 <= m < 60 && 0 <= x < 60
    ensures ParseHms(TwoDigits(h) + ":" + TwoDigits(m) + ":" + TwoDigits(x)) == Some(Seconds(h, m, x))
  {
    TwoDigitsRoundTrip(h);
    TwoDigitsRoundTrip(m);
    TwoDigitsRoundTrip(x);
    var s := TwoDigits(h) + ":" + TwoDigits(m) + ":" + TwoDigits(x);
    assert s[0] == TwoDigits(h)[0] && s[1] == TwoDigits(h)[1];
    assert s[3] == TwoDigits(m)[0] && s[4] == TwoDigits(m)[1];
    assert s[6] == TwoDigits(x)[0] && s[7] == TwoDigits(x)[1];
  }

  /** Formatting a time of day and reading it back gives the same time of day. */
  lemma HmsRoundTrip(sec: int)
    requires 0 <= sec < SecondsPerDay
    ensures ParseHms(Hms(sec)) == Some(sec)
  {
    ClockArithmetic(sec);
    ParseFields(sec / 60 / 60, sec / 60 % 60, sec % 60);
  }

  /** Different times of day are rendered differently. */
  lemma HmsInjective(a: int, b: int)
    requires 0 <= a < SecondsPerDay && 0 <= b < SecondsPerDay
    requires Hms(a) == Hms(b)
    ensures a == b
  {
    HmsRoundTrip(a);
    HmsRoundTrip(b);
  }

  /** A label and a time of day: `"Today, 09:05:00"`. */
  function Labelled(word: string, sec: int): (s: string)
    requires 0 <= sec < SecondsPerDay
    ensures |s| == |word| + 10 && StartsWith(s, word + ", ")
  {
    StartsWithAppend(word + ", ", Hms(sec));
    word + ", " + Hms(sec)
  }

  /** The time of day can be read back from a label, so a label determines it. */
  lemma LabelledInjective(word: string, a: int, b: int)
    requires 0 <= a < SecondsPerDay && 0 <= b < SecondsPerDay
    requires Labelled(word, a) == Labelled(word, b)
    ensures a == b
  {
    var n := |word| + 2;
    assert Labelled(word, a)[n..] == Hms(a);
    assert Labelled(word, b)[n..] == Hms(b);
    HmsInjective(a, b);
  }

  /** An instant is determined by its day and its time of day. */
  lemma {:induction false} SameInstant(a: int, b: int)
    requires DayOf(a) == DayOf(b) && TimeOfDay(a) == TimeOfDay(b)
    ensures a == b
  {
    InstantSplit(a);
    InstantSplit(b);
  }
}
