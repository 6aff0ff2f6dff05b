/**
 * The date helpers (`src/utils/dateUtils.ts`), on their inputs rather than on
 * the clock: an ISO date-time string, a millisecond difference, and two
 * instants in milliseconds.
 */
module DateUtils {
  import opened Wrappers

  const MsPerSecond: nat := 1000
  const MsPerMinute: nat := 60 * MsPerSecond
  const MsPerHour: nat := 60 * MsPerMinute
  const MsPerDay: nat := 24 * MsPerHour

  /**
   * `formatDateKey`: `iso.split('T')[0]`, the part before the first `T`
   * (all of it when there is none).
   */
  function FormatDateKey(iso: string): (key: string)
    ensures key <= iso
    ensures 'T' !in key
    ensures |key| < |iso| ==> iso[|key|] == 'T'
  {
    if iso == [] || iso[0] == 'T' then [] else [iso[0]] + FormatDateKey(iso[1..])
  }

  /** A duration split into whole hours, minutes and seconds. */
  datatype Hms = Hms(hours: nat, minutes: nat, seconds: nat)

  /**
   * The split `getTimeUntilTomorrow` makes of a difference in milliseconds:
   * minutes and seconds are below 60 and the three fields add up to the
   * whole seconds of the difference.
   */
  function SplitDuration(ms: nat): (t: Hms)
    ensures t.minutes < 60 && t.seconds < 60
    ensures t.hours * 3600 + t.minutes * 60 + t.seconds == ms / MsPerSecond
  {
    var t := Hms(ms / MsPerHour, (ms % MsPerHour) / MsPerMinute, (ms % MsPerMinute) / MsPerSecond);
    SplitDurationSums(ms);
    t
  }

  lemma SplitDurationSums(ms: nat)
    ensures (ms / MsPerHour) * 3600 + ((ms % MsPerHour) / MsPerMinute) * 60 + (ms % MsPerMinute) / MsPerSecond
            == ms / MsPerSecond
  {
    var h, rh := ms / MsPerHour, ms % MsPerHour;
    var m, rm := rh / MsPerMinute, rh % MsPerMinute;
    assert ms == h * MsPerHour + rh;
    assert rh == m * MsPerMinute + rm;
    var minutes := h * 60 + m;
    assert ms == minutes * MsPerMinute + rm;
    DivisionOfSum(minutes, rm, MsPerMinute);
    var seconds := h * 3600 + m * 60;
    assert ms == seconds * MsPerSecond + rm;
    DivisionOfSum(seconds, rm, MsPerSecond);
  }

  /** Adding whole multiples of `d` moves the quotient by that many and leaves the remainder. */
  lemma DivisionOfSum(q: nat, r: nat, d: nat)
    requires d > 0
    ensures (q * d + r) / d == q + r / d
    ensures (q * d + r) % d == r % d
  {
    var x := q * d + r;
    var a := q + r / d;
    assert x == a * d + r % d;
    var a0 := x / d;
    if a0 > a {
      ScaledAtLeast(a0 - a, d);
    } else if a0 < a {
      ScaledAtLeast(a - a0, d);
    }
  }

  lemma ScaledAtLeast(k: int, d: nat)
    requires k >= 1
    ensures k * d >= d
  {
    assert k * d == (k - 1) * d + d;
  }

  function DigitChar(d: nat): char
    requires d < 10
  {
    (48 + d) as char
  }

  /** `String(n)`: the decimal digits of `n`. */
  function Decimal(n: nat): string
    decreases n
  {
    if n < 10 then [DigitChar(n)] else Decimal(n / 10) + [DigitChar(n % 10)]
  }

  /** `s.padStart(width, fill)`. */
  function PadStart(s: string, width: nat, fill: char): (r: string)
    ensures |r| == if |s| >= width then |s| else width
    ensures r[|r| - |s|..] == s
    ensures forall i :: 0 <= i < |r| - |s| ==> r[i] == fill
    decreases width - |s|
  {
    if |s| >= width then s else PadStart([fill] + s, width, fill)
  }

  function TwoDigits(n: nat): string {
    PadStart(Decimal(n), 2, '0')
  }

  /** `getTimeUntilTomorrow`'s result for a difference of `ms` milliseconds: `HH:MM:SS`. */
  function FormatCountdown(ms: nat): string {
    FormatHms(SplitDuration(ms))
  }

  /** The three fields, each padded to two digits, joined with `:`. */
  function FormatHms(t: Hms): string {
    TwoDigits(t.hours) + ":" + TwoDigits(t.minutes) + ":" + TwoDigits(t.seconds)
  }

  /** A number below 100 prints as two digits: its tens and its units. */
  lemma TwoDigitsOf(n: nat)
    requires n < 100
    ensures TwoDigits(n) == [DigitChar(n / 10), DigitChar(n % 10)]
  {
    if n >= 10 {
      assert Decimal(n) == [DigitChar(n / 10), DigitChar(n % 10)];
    }
  }

  predicate IsDigit(c: char) {
    '0' <= c <= '9'
  }

  function DigitValue(c: char): nat
    requires IsDigit(c)
  {
    (c as int) - 48
  }

  /** Reads a `HH:MM:SS` string back into its three fields. */
  function ParseCountdown(s: string): Option<Hms> {
    if |s| == 8 && s[2] == ':' && s[5] == ':' && forall i :: 0 <= i < 8 && i != 2 && i != 5 ==> IsDigit(s[i]) then
      Some(Hms(DigitValue(s[0]) * 10 + DigitValue(s[1]),
               DigitValue(s[3]) * 10 + DigitValue(s[4]),
               DigitValue(s[6]) * 10 + DigitValue(s[7])))
    else
      None
  }

  /** The eight characters of `HH:MM:SS` for fields below 100. */
  function Layout(t: Hms): string
    requires t.hours < 100 && t.minutes < 100 && t.seconds < 100
  {
    [DigitChar(t.hours / 10), DigitChar(t.hours % 10), ':',
     DigitChar(t.minutes / 10), DigitChar(t.minutes % 10), ':',
     DigitChar(t.seconds / 10), DigitChar(t.seconds % 10)]
  }

  /** While the hours fit in two digits, the countdown is the eight-character layout of its fields. */
  lemma FormatCountdownLayout(ms: nat)
    requires ms < 100 * MsPerHour
    ensures SplitDuration(ms).hours < 100
    ensures FormatCountdown(ms) == Layout(SplitDuration(ms))
  {
    var t := SplitDuration(ms);
    assert t.hours < 100 by {
      assert t.hours == ms / MsPerHour;
    }
    FormatHmsLayout(t);
  }

  lemma FormatHmsLayout(t: Hms)
    requires t.hours < 100 && t.minutes < 100 && t.seconds < 100
    ensures FormatHms(t) == Layout(t)
  {
    TwoDigitsOf(t.hours);
    TwoDigitsOf(t.minutes);
    TwoDigitsOf(t.seconds);
    JoinFields(TwoDigits(t.hours), TwoDigits(t.minutes), TwoDigits(t.seconds));
  }

  /** Three two-character fields joined with `:` are eight characters. */
  lemma JoinFields(a: string, b: string, c: string)
    requires |a| == 2 && |b| == 2 && |c| == 2
    ensures a + ":" + b + ":" + c == [a[0], a[1], ':', b[0], b[1], ':', c[0], c[1]]
  {
  }

  lemma ParseLayout(t: Hms)
    requires t.hours < 100 && t.minutes < 100 && t.seconds < 100
    ensures ParseCountdown(Layout(t)) == Some(t)
  {
    var s := Layout(t);
    assert DigitValue(s[0]) * 10 + DigitValue(s[1]) == t.hours;
    assert DigitValue(s[3]) * 10 + DigitValue(s[4]) == t.minutes;
    assert DigitValue(s[6]) * 10 + DigitValue(s[7]) == t.seconds;
  }

  /**
   * While the hours fit in two digits, the countdown text reads back as the
   * hours, minutes and seconds of the difference.
   */
  lemma CountdownRoundTrip(ms: nat)
    requires ms < 100 * MsPerHour
    ensures ParseCountdown(FormatCountdown(ms)) == Some(SplitDuration(ms))
  {
    FormatCountdownLayout(ms);
    ParseLayout(SplitDuration(ms));
  }

  /** The countdown for a difference whose split and layout are known. */
  lemma CountdownIs(ms: nat, t: Hms, text: string)
    requires SplitDuration(ms) == t
    requires t.hours < 100 && t.minutes < 100 && t.seconds < 100 && Layout(t) == text
    ensures FormatCountdown(ms) == text
  {
    FormatHmsLayout(t);
  }

  /** The countdown 14 hours before midnight. */
  lemma CountdownFourteenHours()
    ensures FormatCountdown(14 * MsPerHour) == "14:00:00"
  {
    assert SplitDuration(14 * MsPerHour) == Hms(14, 0, 0);
    assert Layout(Hms(14, 0, 0)) == "14:00:00";
    CountdownIs(14 * MsPerHour, Hms(14, 0, 0), "14:00:00");
  }

  /** The countdown 2 seconds before midnight. */
  lemma CountdownTwoSeconds()
    ensures FormatCountdown(2 * MsPerSecond) == "00:00:02"
  {
    assert SplitDuration(2 * MsPerSecond) == Hms(0, 0, 2);
    assert Layout(Hms(0, 0, 2)) == "00:00:02";
    CountdownIs(2 * MsPerSecond, Hms(0, 0, 2), "00:00:02");
  }

  /** The countdown 1 hour before midnight. */
  lemma CountdownOneHour()
    ensures FormatCountdown(MsPerHour) == "01:00:00"
  {
    assert SplitDuration(MsPerHour) == Hms(1, 0, 0);
    assert Layout(Hms(1, 0, 0)) == "01:00:00";
    CountdownIs(MsPerHour, Hms(1, 0, 0), "01:00:00");
  }

  function Abs(x: int): nat {
    if x < 0 then -x else x
  }

  /**
   * `getCurrentDayNumber`: the number of days between the two instants,
   * rounded up, so any part of a day counts as a whole one.
   */
  function DayNumber(todayMs: int, startMs: int): (d: nat)
    ensures d == 0 <==> todayMs == startMs
    ensures d > 0 ==> (d - 1) * MsPerDay < Abs(todayMs - startMs)
    ensures Abs(todayMs - startMs) <= d * MsPerDay
  {
    var diff := Abs(todayMs - startMs);
    (diff + MsPerDay - 1) / MsPerDay
  }
}
