/** Epoch and time-of-day values of the DuckDB driver: splitting by unit, and the text form of a TIME. */
module TimeText {
  import opened Arithmetic

  datatype TimeUnit = Second | Millisecond | Microsecond | Nanosecond

  const NANOS_PER_SECOND := 1_000_000_000
  const DAY_SECONDS := 86400

  function UnitsPerSecond(unit: TimeUnit): (n: nat)
    ensures n > 0
  {
    match unit
    case Second => 1
    case Millisecond => 1_000
    case Microsecond => 1_000_000
    case Nanosecond => NANOS_PER_SECOND
  }

  function NanosPerUnit(unit: TimeUnit): nat {
    match unit
    case Second => NANOS_PER_SECOND
    case Millisecond => 1_000_000
    case Microsecond => 1_000
    case Nanosecond => 1
  }

  /** Euclidean division, so the nanoseconds count forward also before 1970. */
  function SplitEpoch(unit: TimeUnit, value: int): (int, nat) {
    (value / UnitsPerSecond(unit), value % UnitsPerSecond(unit) * (NANOS_PER_SECOND / UnitsPerSecond(unit)))
  }

  /** Splitting loses nothing, for every unit and every value: the parts add up again and stay within one second. */
  lemma SplitRecombines(unit: TimeUnit, value: int)
    ensures var (seconds, nanos) := SplitEpoch(unit, value);
      && nanos < NANOS_PER_SECOND
      && seconds * NANOS_PER_SECOND + nanos == value * NanosPerUnit(unit)
  {
    var u, n := UnitsPerSecond(unit), NanosPerUnit(unit);
    UnitsFill(unit);
    hide UnitsPerSecond, NanosPerUnit;
    Recombined(value / u, value % u, value, u, n);
  }

  lemma UnitsFill(unit: TimeUnit)
    ensures UnitsPerSecond(unit) * NanosPerUnit(unit) == NANOS_PER_SECOND
    ensures NANOS_PER_SECOND / UnitsPerSecond(unit) == NanosPerUnit(unit) > 0
  {
  }

  lemma Recombined(q: int, r: nat, value: int, u: nat, n: nat)
    requires value == q * u + r && r < u && u * n == NANOS_PER_SECOND && n > 0
    ensures r * n < NANOS_PER_SECOND && q * NANOS_PER_SECOND + r * n == value * n
  {
    Remainder(r * n, NANOS_PER_SECOND, 0, r * n) by {
      Fewer(r, u, n);
    }
    assert (q * u + r) * n == q * (u * n) + r * n;
  }

  lemma Fewer(r: nat, u: nat, n: nat)
    requires r < u && n > 0
    ensures 0 <= r * n < u * n
  {
  }

  // ---------- digits ----------

  function Digit(d: nat): char
    requires d < 10
  {
    '0' + d as char
  }

  function DigitValue(c: char): nat {
    if '0' <= c <= '9' then c as int - '0' as int else 0
  }

  /** The last `width` digits of a number. */
  function Digits(n: nat, width: nat): (s: string)
    ensures |s| == width
  {
    if width == 0 then "" else Digits(n / 10, width - 1) + [Digit(n % 10)]
  }

  function ReadNumber(s: string): nat {
    if s == "" then 0 else 10 * ReadNumber(s[..|s| - 1]) + DigitValue(s[|s| - 1])
  }

  function PowerOfTen(k: nat): (p: nat)
    ensures p > 0
  {
    if k == 0 then 1 else 10 * PowerOfTen(k - 1)
  }

  lemma {:induction false} DigitsReadBack(n: nat, width: nat)
    requires n < PowerOfTen(width)
    ensures ReadNumber(Digits(n, width)) == n
    decreases width
  {
    if width > 0 {
      DigitsReadBack(n / 10, width - 1);
      var s := Digits(n, width);
      assert s[..width - 1] == Digits(n / 10, width - 1);
      assert DigitValue(Digit(n % 10)) == n % 10;
    }
  }

  // ---------- the fraction ----------

  function TrimZeros(s: string): (r: string)
    ensures |r| <= |s|
  {
    if s != "" && s[|s| - 1] == '0' then TrimZeros(s[..|s| - 1]) else s
  }

  function Fraction(nanos: nat): string {
    if nanos == 0 then "" else "." + TrimZeros(Digits(nanos, 9))
  }

  method AppendFraction(value: string, nanos: nat) returns (text: string)
    ensures text == value + Fraction(nanos)
  {
    if nanos == 0 {
      return value;
    }
    var fraction := Digits(nanos, 9);
    while fraction != "" && fraction[|fraction| - 1] == '0'
      invariant TrimZeros(fraction) == TrimZeros(Digits(nanos, 9))
      decreases |fraction|
    {
      fraction := fraction[..|fraction| - 1];
    }
    text := value + ".";
    text := text + fraction;
  }

  /** Digits behind the point count tenths, hundredths and so on; trailing zeros do not matter. */
  function ReadFraction(s: string): nat
    requires |s| <= 9
  {
    ReadNumber(s) * PowerOfTen(9 - |s|)
  }

  lemma {:induction false} TrimmedZerosAreWorthless(s: string)
    requires |s| <= 9
    ensures ReadFraction(TrimZeros(s)) == ReadFraction(s)
    decreases |s|
  {
    if s != "" && s[|s| - 1] == '0' {
      var t := s[..|s| - 1];
      TrimmedZerosAreWorthless(t);
      assert ReadNumber(s) == 10 * ReadNumber(t);
      assert PowerOfTen(9 - |t|) == 10 * PowerOfTen(9 - |s|);
      Shift(ReadNumber(t), PowerOfTen(9 - |s|));
    }
  }

  lemma Shift(a: int, b: int)
    ensures (10 * a) * b == a * (10 * b)
  {
  }

  lemma NinePlaces()
    ensures PowerOfTen(2) == 100 && PowerOfTen(9) == NANOS_PER_SECOND
  {
    assert PowerOfTen(3) == 1000 && PowerOfTen(6) == 1_000_000;
  }

  lemma FractionReadsBack(nanos: nat)
    requires nanos < NANOS_PER_SECOND
    ensures ReadFraction(TrimZeros(Digits(nanos, 9))) == nanos
  {
    NinePlaces();
    DigitsReadBack(nanos, 9);
    TrimmedZerosAreWorthless(Digits(nanos, 9));
  }

  // ---------- a time of day ----------

  /** The value in microseconds; nanoseconds are cut off towards zero. */
  function ToMicros(unit: TimeUnit, value: int): int {
    match unit
    case Second => value * 1_000_000
    case Millisecond => value * 1_000
    case Microsecond => value
    case Nanosecond => if value >= 0 then value / 1_000 else -(-value / 1_000)
  }

  function SecondOfDay(unit: TimeUnit, value: int): nat {
    ToMicros(unit, value) / 1_000_000 % DAY_SECONDS
  }

  function Clock(second: nat): string {
    Digits(second / 3600, 2) + ":" + Digits(second % 3600 / 60, 2) + ":" + Digits(second % 60, 2)
  }

  method FormatTime64(unit: TimeUnit, value: int) returns (text: string)
    ensures text == TimeOfDay(unit, value)
  {
    var (_, nanos) := SplitEpoch(unit, value);
    var seconds := ToMicros(unit, value) / 1_000_000;
    var secondsOfDay := seconds % DAY_SECONDS;
    var hour, minute, second := secondsOfDay / 3600, secondsOfDay % 3600 / 60, secondsOfDay % 60;
    text := Digits(hour, 2) + ":" + Digits(minute, 2) + ":" + Digits(second, 2);
    text := AppendFraction(text, nanos);
  }

  function TimeOfDay(unit: TimeUnit, value: int): string {
    Clock(SecondOfDay(unit, value)) + Fraction(SplitEpoch(unit, value).1)
  }

  /** Reading HH:MM:SS with an optional fraction, in nanoseconds. */
  function ReadTime(text: string): nat
    requires 8 <= |text| <= 18
  {
    var clock := ReadNumber(text[..2]) * 3600 + ReadNumber(text[3..5]) * 60 + ReadNumber(text[6..8]);
    clock * NANOS_PER_SECOND + if |text| == 8 then 0 else ReadFraction(text[9..])
  }

  lemma ClockReadsBack(second: nat, rest: string)
    requires second < DAY_SECONDS
    ensures var text := Clock(second) + rest;
      && |text| == 8 + |rest| && text[8..] == rest
      && ReadNumber(text[..2]) * 3600 + ReadNumber(text[3..5]) * 60 + ReadNumber(text[6..8]) == second
  {
    hide Digits, ReadNumber, PowerOfTen;
    var h, m, s := second / 3600, second % 3600 / 60, second % 60;
    NinePlaces();
    ClockAdds(second);
    DigitsReadBack(h, 2);
    DigitsReadBack(m, 2);
    DigitsReadBack(s, 2);
    ClockParts(Digits(h, 2), Digits(m, 2), Digits(s, 2), rest);
  }

  lemma ClockAdds(second: nat)
    requires second < DAY_SECONDS
    ensures var h, m, s := second / 3600, second % 3600 / 60, second % 60;
      h < 100 && m < 100 && s < 100 && h * 3600 + m * 60 + s == second
  {
    var r := second % 3600;
    assert second == 3600 * (second / 3600) + r && r == 60 * (r / 60) + r % 60;
    assert second == 60 * (60 * (second / 3600) + r / 60) + r % 60;
  }

  lemma ClockParts(h: string, m: string, s: string, rest: string)
    requires |h| == |m| == |s| == 2
    ensures var text := h + ":" + m + ":" + s + rest;
      |text| == 8 + |rest| && text[..2] == h && text[3..5] == m && text[6..8] == s && text[8..] == rest
  {
  }

  /** The value counted in nanoseconds since midnight. */
  function NanosOfDay(unit: TimeUnit, value: int): nat {
    value * NanosPerUnit(unit) % (DAY_SECONDS * NANOS_PER_SECOND)
  }

  /**
   * The seconds come from microseconds cut off towards zero, so a negative count of nanoseconds that lies less than a
   * microsecond before a full second is shown one second late.
   */
  predicate RoundsUp(unit: TimeUnit, value: int) {
    unit.Nanosecond? && value < 0 && value % NANOS_PER_SECOND > 999_999_000
  }

  /** The text says exactly which second of the day and which nanosecond it holds. */
  lemma TextReadsBack(unit: TimeUnit, value: int)
    ensures var text := TimeOfDay(unit, value);
      && 8 <= |text| <= 18
      && ReadTime(text) == SecondOfDay(unit, value) * NANOS_PER_SECOND + SplitEpoch(unit, value).1
  {
    hide ToMicros, Clock, ReadNumber, PowerOfTen, ReadFraction, TrimZeros, Digits;
    var nanos := SplitEpoch(unit, value).1;
    SplitRecombines(unit, value);
    var second, rest := SecondOfDay(unit, value), Fraction(nanos);
    ClockReadsBack(second, rest);
    var text := Clock(second) + rest;
    if nanos > 0 {
      FractionReadsBack(nanos);
      assert text[9..] == rest[1..] == TrimZeros(Digits(nanos, 9));
      SomethingLeft(nanos);
    }
  }

  /** For every unit and value: the text reads back as the time of day, to the nanosecond, unless it rounds up. */
  lemma TimeReadsBackIff(unit: TimeUnit, value: int)
    ensures var text := TimeOfDay(unit, value);
      8 <= |text| <= 18 && (ReadTime(text) == NanosOfDay(unit, value) <==> !RoundsUp(unit, value))
  {
    hide TimeOfDay, ReadTime, NanosOfDay, SplitEpoch, SecondOfDay, RoundsUp;
    TextReadsBack(unit, value);
    DayParts(unit, value);
    SecondIs(unit, value);
    NextSecond(SplitEpoch(unit, value).0);
  }

  /** The seconds and nanoseconds of a value, taken within the day. */
  lemma DayParts(unit: TimeUnit, value: int)
    ensures var (seconds, nanos) := SplitEpoch(unit, value);
      NanosOfDay(unit, value) == seconds % DAY_SECONDS * NANOS_PER_SECOND + nanos
  {
    hide SplitEpoch;
    SplitRecombines(unit, value);
    var (seconds, nanos) := SplitEpoch(unit, value);
    var days, second := seconds / DAY_SECONDS, seconds % DAY_SECONDS;
    var rest := second * NANOS_PER_SECOND + nanos;
    assert seconds == days * DAY_SECONDS + second;
    assert value * NanosPerUnit(unit) == days * (DAY_SECONDS * NANOS_PER_SECOND) + rest;
    assert 0 <= rest < DAY_SECONDS * NANOS_PER_SECOND;
    Remainder(value * NanosPerUnit(unit), DAY_SECONDS * NANOS_PER_SECOND, days, rest);
  }

  /** The second that is shown is the one of the value, or the next one when it rounds up. */
  lemma SecondIs(unit: TimeUnit, value: int)
    ensures SecondOfDay(unit, value) ==
      (SplitEpoch(unit, value).0 + if RoundsUp(unit, value) then 1 else 0) % DAY_SECONDS
  {
    WholeSeconds(unit, value);
    hide SplitEpoch;
  }

  lemma WholeSeconds(unit: TimeUnit, value: int)
    ensures ToMicros(unit, value) / 1_000_000 == SplitEpoch(unit, value).0 + if RoundsUp(unit, value) then 1 else 0
  {
    match unit
    case Second => Remainder(value * 1_000_000, 1_000_000, value, 0);
    case Millisecond => Remainder(value * 1_000, 1_000_000, value / 1_000, value % 1_000 * 1_000);
    case Microsecond =>
    case Nanosecond =>
      if value >= 0 {
        MicrosOfNanos(value);
      } else {
        MicrosOfNegative(value);
      }
  }

  lemma MicrosOfNanos(value: nat)
    ensures value / 1_000 / 1_000_000 == value / NANOS_PER_SECOND
  {
    var s, r := value / NANOS_PER_SECOND, value % NANOS_PER_SECOND;
    assert value == s * NANOS_PER_SECOND + r;
    Remainder(value, 1_000, s * 1_000_000 + r / 1_000, r % 1_000);
    Remainder(value / 1_000, 1_000_000, s, r / 1_000);
  }

  lemma MicrosOfNegative(value: int)
    requires value < 0
    ensures -(-value / 1_000) / 1_000_000 ==
      value / NANOS_PER_SECOND + if value % NANOS_PER_SECOND > 999_999_000 then 1 else 0
  {
    var s, r := value / NANOS_PER_SECOND, value % NANOS_PER_SECOND;
    assert value == s * NANOS_PER_SECOND + r;
    var up := (r + 999) / 1_000;
    Remainder(-value, 1_000, -s * 1_000_000 - up, 1_000 * up - r);
    assert -(-value / 1_000) == s * 1_000_000 + up;
    if r > 999_999_000 {
      Remainder(s * 1_000_000 + up, 1_000_000, s + 1, 0);
    } else {
      Remainder(s * 1_000_000 + up, 1_000_000, s, up);
    }
  }

  /** One second further is another second of the day. */
  lemma NextSecond(seconds: int)
    ensures (seconds + 1) % DAY_SECONDS != seconds % DAY_SECONDS
  {
  }

  /** The smallest case: one nanosecond before midnight is shown as one before one second past it. */
  lemma BeforeMidnightIsLate()
    ensures RoundsUp(Nanosecond, -1) && NanosOfDay(Nanosecond, -1) == 86_399_999_999_999
    ensures TimeOfDay(Nanosecond, -1) == Clock(0) + Fraction(999_999_999)
  {
    hide Clock, Fraction;
    assert ToMicros(Nanosecond, -1) == 0;
    Remainder(-1, NANOS_PER_SECOND, -1, 999_999_999);
    Remainder(-1, DAY_SECONDS * NANOS_PER_SECOND, -1, 86_399_999_999_999);
  }

  /** Every time within a day reads back from its text to the very nanosecond, in every unit. */
  lemma TimeReadsBack(unit: TimeUnit, value: nat)
    requires value * NanosPerUnit(unit) < DAY_SECONDS * NANOS_PER_SECOND
    ensures var text := TimeOfDay(unit, value);
      8 <= |text| <= 18 && ReadTime(text) == value * NanosPerUnit(unit)
  {
    hide TimeOfDay, ReadTime;
    TimeReadsBackIff(unit, value);
  }

  lemma SomethingLeft(nanos: nat)
    requires 0 < nanos < NANOS_PER_SECOND
    ensures 2 <= |Fraction(nanos)| <= 10
  {
    FractionReadsBack(nanos);
    EmptyFraction();
  }

  lemma EmptyFraction()
    ensures ReadFraction("") == 0
  {
    assert ReadNumber("") * PowerOfTen(9) == 0;
  }

  // ---------- the form of the text ----------

  predicate AllDigits(s: string) {
    forall i :: 0 <= i < |s| ==> '0' <= s[i] <= '9'
  }

  /** Two digits each for hour, minute and second, and a fraction that does not end in zero. */
  predicate IsTimeText(s: string) {
    && |s| >= 8 && s[2] == ':' && s[5] == ':'
    && AllDigits(s[..2]) && AllDigits(s[3..5]) && AllDigits(s[6..8])
    && ReadNumber(s[..2]) < 24 && ReadNumber(s[3..5]) < 60 && ReadNumber(s[6..8]) < 60
    && (|s| > 8 ==> s[8] == '.' && 9 < |s| <= 18 && AllDigits(s[9..]) && s[|s| - 1] != '0')
  }

  lemma {:induction false} DigitsAreDigits(n: nat, width: nat)
    ensures AllDigits(Digits(n, width))
    decreases width
  {
    if width > 0 {
      DigitsAreDigits(n / 10, width - 1);
    }
  }

  lemma {:induction false} TrimmedEnds(s: string)
    ensures AllDigits(s) ==> AllDigits(TrimZeros(s))
    ensures TrimZeros(s) != "" ==> TrimZeros(s)[|TrimZeros(s)| - 1] != '0'
    decreases |s|
  {
    if s != "" && s[|s| - 1] == '0' {
      TrimmedEnds(s[..|s| - 1]);
    }
  }

  lemma ClockIsClock(second: nat, rest: string)
    requires second < DAY_SECONDS
    ensures var s := Clock(second) + rest;
      && |s| == 8 + |rest| && s[8..] == rest && s[2] == ':' && s[5] == ':'
      && AllDigits(s[..2]) && AllDigits(s[3..5]) && AllDigits(s[6..8])
      && ReadNumber(s[..2]) < 24 && ReadNumber(s[3..5]) < 60 && ReadNumber(s[6..8]) < 60
  {
    hide Digits, ReadNumber, PowerOfTen, AllDigits;
    var h, m, s := second / 3600, second % 3600 / 60, second % 60;
    NinePlaces();
    ClockAdds(second);
    DigitsReadBack(h, 2);
    DigitsReadBack(m, 2);
    DigitsReadBack(s, 2);
    DigitsAreDigits(h, 2);
    DigitsAreDigits(m, 2);
    DigitsAreDigits(s, 2);
    ClockParts(Digits(h, 2), Digits(m, 2), Digits(s, 2), rest);
  }

  /** Whatever the value, the text is a time of day as a reader knows it, no longer than it has to be. */
  lemma TextIsATime(unit: TimeUnit, value: int)
    ensures IsTimeText(TimeOfDay(unit, value))
  {
    hide ToMicros, Clock, ReadNumber, PowerOfTen, TrimZeros, Digits, AllDigits;
    var nanos := SplitEpoch(unit, value).1;
    SplitRecombines(unit, value);
    var second, rest := SecondOfDay(unit, value), Fraction(nanos);
    ClockIsClock(second, rest);
    if nanos > 0 {
      var text := Clock(second) + rest;
      SomethingLeft(nanos);
      DigitsAreDigits(nanos, 9);
      TrimmedEnds(Digits(nanos, 9));
      assert text[9..] == rest[1..] == TrimZeros(Digits(nanos, 9));
      assert text[|text| - 1] == rest[|rest| - 1] == TrimZeros(Digits(nanos, 9))[|rest| - 2];
      assert text[8] == rest[0];
    }
  }
}
