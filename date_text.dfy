/** `_to_datetime`: reading a `"YYYY-MM-DD HH:MM:SS"` timestamp with
    `str.split`, `int()` and tuple unpacking, then building a `datetime`,
    which checks every component's range. */
module DateText {
  import opened Wrappers
  import opened PyValues

  // ----- `str.split(sep)` with a one-character separator -----

  /** `s.split(sep)`: the pieces between separators, empty pieces
      included, so there is always one piece more than separators. */
  function Split(s: string, sep: char): (r: seq<string>)
    ensures |r| >= 1
    ensures forall i :: 0 <= i < |r| ==> sep !in r[i]
    decreases |s|
  {
    if s == [] then [[]]
    else if s[0] == sep then [[]] + Split(s[1..], sep)
    else
      var t := Split(s[1..], sep);
      [[s[0]] + t[0]] + t[1..]
  }

  /** `sep.join(parts)`. */
  function Join(parts: seq<string>, sep: char): string
    requires |parts| >= 1
  {
    if |parts| == 1 then parts[0] else parts[0] + [sep] + Join(parts[1..], sep)
  }

  /** Joining the pieces gives back the string. */
  lemma {:induction false} JoinSplit(s: string, sep: char)
    ensures Join(Split(s, sep), sep) == s
    decreases |s|
  {
    if s != [] {
      var t := Split(s[1..], sep);
      JoinSplit(s[1..], sep);
      if s[0] == sep {
        assert Split(s, sep) == [[]] + t;
        assert ([[]] + t)[1..] == t;
      } else {
        var r := [[s[0]] + t[0]] + t[1..];
        assert r[1..] == t[1..];
        if |t| == 1 {
          assert Join(t, sep) == t[0];
        } else {
          assert Join(t, sep) == t[0] + [sep] + Join(t[1..], sep);
        }
      }
    }
  }

  /** A string without the separator is one piece. */
  lemma {:induction false} SplitNone(s: string, sep: char)
    requires sep !in s
    ensures Split(s, sep) == [s]
    decreases |s|
  {
    if s != [] {
      SplitNone(s[1..], sep);
      assert [s[0]] + s[1..] == s;
    }
  }

  /** Splitting at a separator: the pieces of the part before it, then the
      pieces of the part after it. */
  lemma {:induction false} SplitAt(a: string, sep: char, b: string)
    requires sep !in a
    ensures Split(a + [sep] + b, sep) == [a] + Split(b, sep)
    decreases |a|
  {
    var s := a + [sep] + b;
    if a == [] {
      assert s == [sep] + b;
      assert s[1..] == b;
    } else {
      SplitAt(a[1..], sep, b);
      assert s[1..] == a[1..] + [sep] + b;
      assert s[0] == a[0];
      assert [a[0]] + a[1..] == a;
    }
  }

  // ----- `int(text)` -----

  predicate IsDigit(c: char) {
    '0' <= c <= '9'
  }

  /** One or more decimal digits. */
  predicate AllDigits(s: string) {
    |s| >= 1 && forall i :: 0 <= i < |s| ==> IsDigit(s[i])
  }

  function DigitValue(c: char): nat
    requires IsDigit(c)
  {
    c as int - '0' as int
  }

  /** The value of a string of digits, most significant first. */
  function DigitsValue(s: string): nat
    requires forall i :: 0 <= i < |s| ==> IsDigit(s[i])
    decreases |s|
  {
    if s == [] then 0 else DigitsValue(s[..|s| - 1]) * 10 + DigitValue(s[|s| - 1])
  }

  /** `int(text)` on the forms a timestamp uses: an optional sign and one or
      more ASCII digits (leading zeros allowed); anything else is a
      `ValueError`. */
  function ParseInt(s: string): (r: Result<int, PyException>)
    ensures r.Success? <==> AllDigits(s) || (|s| >= 2 && (s[0] == '-' || s[0] == '+') && AllDigits(s[1..]))
    ensures AllDigits(s) ==> r == Success(DigitsValue(s) as int)
    ensures |s| >= 2 && s[0] == '-' && AllDigits(s[1..]) ==> r == Success(0 - DigitsValue(s[1..]) as int)
    ensures |s| >= 2 && s[0] == '+' && AllDigits(s[1..]) ==> r == Success(DigitsValue(s[1..]) as int)
    ensures r.Failure? ==> r.error.ValueError?
  {
    if AllDigits(s) then Success(DigitsValue(s) as int)
    else if |s| >= 2 && s[0] == '-' && AllDigits(s[1..]) then Success(0 - DigitsValue(s[1..]) as int)
    else if |s| >= 2 && s[0] == '+' && AllDigits(s[1..]) then Success(DigitsValue(s[1..]) as int)
    else Failure(ValueError("invalid literal for int() with base 10"))
  }

  /** The decimal digits of `n`, without leading zeros. */
  function DigitsOf(n: nat): (r: string)
    ensures AllDigits(r)
  {
    if n < 10 then [('0' as int + n) as char]
    else DigitsOf(n / 10) + [('0' as int + n % 10) as char]
  }

  /** `n` padded on the left with zeros to at least `width` characters. */
  function Padded(n: nat, width: nat): (r: string)
    ensures AllDigits(r) && |r| >= width
  {
    ZeroPad(DigitsOf(n), width)
  }

  function ZeroPad(s: string, width: nat): (r: string)
    requires AllDigits(s)
    ensures AllDigits(r) && |r| >= width && |r| >= |s|
    decreases width - |s|
  {
    if |s| >= width then s else ZeroPad(['0'] + s, width)
  }

  /** The digits read back as the number they were written from. */
  lemma {:induction false} DigitsRoundTrip(n: nat)
    ensures DigitsValue(DigitsOf(n)) == n
  {
    if n >= 10 {
      DigitsRoundTrip(n / 10);
      var s := DigitsOf(n);
      assert s[..|s| - 1] == DigitsOf(n / 10);
    }
  }

  /** A leading zero does not change the value. */
  lemma {:induction false} LeadingZero(s: string)
    requires forall i :: 0 <= i < |s| ==> IsDigit(s[i])
    ensures DigitsValue(['0'] + s) == DigitsValue(s)
    decreases |s|
  {
    if s != [] {
      var t := ['0'] + s;
      assert t[..|t| - 1] == ['0'] + s[..|s| - 1];
      LeadingZero(s[..|s| - 1]);
    }
  }

  lemma {:induction false} ZeroPadValue(s: string, width: nat)
    requires AllDigits(s)
    ensures DigitsValue(ZeroPad(s, width)) == DigitsValue(s)
    decreases width - |s|
  {
    if |s| < width {
      LeadingZero(s);
      ZeroPadValue(['0'] + s, width);
    }
  }

  /** `int()` reads a zero-padded number back. */
  lemma PaddedRoundTrip(n: nat, width: nat)
    ensures ParseInt(Padded(n, width)) == Success(n)
  {
    DigitsRoundTrip(n);
    ZeroPadValue(DigitsOf(n), width);
  }

  // ----- `datetime(year, month, day, hour, minute, second)` -----

  datatype DateTime = DateTime(year: int, month: int, day: int, hour: int, minute: int, second: int)

  predicate IsLeap(year: int) {
    year % 4 == 0 && (year % 100 != 0 || year % 400 == 0)
  }

  /** The days of a month of the proleptic Gregorian calendar. */
  function DaysIn(year: int, month: int): (r: int)
    requires 1 <= month <= 12
    ensures 28 <= r <= 31
  {
    if month == 2 then (if IsLeap(year) then 29 else 28)
    else if month == 4 || month == 6 || month == 9 || month == 11 then 30
    else 31
  }

  /** The components a `datetime` accepts. */
  predicate Valid(d: DateTime) {
    && 1 <= d.year <= 9999
    && 1 <= d.month <= 12
    && 1 <= d.day <= DaysIn(d.year, d.month)
    && 0 <= d.hour <= 23
    && 0 <= d.minute <= 59
    && 0 <= d.second <= 59
  }

  /** The `datetime` constructor: the value, or the `ValueError` of the
      first component out of range, checked year, month, day, then the
      time of day. */
  function MakeDateTime(year: int, month: int, day: int, hour: int, minute: int, second: int): (r: Result<DateTime, PyException>)
    ensures r.Success? <==> Valid(DateTime(year, month, day, hour, minute, second))
    ensures r.Success? ==> r.value == DateTime(year, month, day, hour, minute, second)
    ensures r.Failure? ==> r.error.ValueError?
  {
    if !(1 <= year <= 9999) then Failure(ValueError("year is out of range"))
    else if !(1 <= month <= 12) then Failure(ValueError("month must be in 1..12"))
    else if !(1 <= day <= DaysIn(year, month)) then Failure(ValueError("day is out of range for month"))
    else if !(0 <= hour <= 23) then Failure(ValueError("hour must be in 0..23"))
    else if !(0 <= minute <= 59) then Failure(ValueError("minute must be in 0..59"))
    else if !(0 <= second <= 59) then Failure(ValueError("second must be in 0..59"))
    else Success(DateTime(year, month, day, hour, minute, second))
  }

  // ----- `_to_datetime` -----

  /** `[int(i) for i in parts]`: every piece converted, or the error of the
      first that is not a number. */
  function ParseInts(parts: seq<string>): (r: Result<seq<int>, PyException>)
    ensures r.Success? <==> forall i :: 0 <= i < |parts| ==> ParseInt(parts[i]).Success?
    ensures r.Success? ==> |r.value| == |parts| && forall i :: 0 <= i < |parts| ==> r.value[i] == ParseInt(parts[i]).value
    ensures r.Failure? ==> r.error.ValueError?
  {
    if parts == [] then Success([])
    else match ParseInt(parts[0])
      case Failure(e) => Failure(e)
      case Success(x) =>
        match ParseInts(parts[1..])
        case Failure(e) =>
          assert exists i :: 0 <= i < |parts[1..]| && ParseInt(parts[1..][i]).Failure?;
          Failure(e)
        case Success(xs) =>
          assert forall i :: 1 <= i < |parts| ==> parts[i] == parts[1..][i - 1];
          Success([x] + xs)
  }

  /** Unpacking into `n` names: a `ValueError` unless there are exactly `n`
      values. */
  function Unpack<T>(xs: seq<T>, n: nat): (r: Result<seq<T>, PyException>)
    ensures r.Success? <==> |xs| == n
    ensures r.Success? ==> r.value == xs
    ensures |xs| < n ==> r == Failure(ValueError("not enough values to unpack"))
    ensures |xs| > n ==> r == Failure(ValueError("too many values to unpack"))
  {
    if |xs| < n then Failure(ValueError("not enough values to unpack"))
    else if |xs| > n then Failure(ValueError("too many values to unpack"))
    else Success(xs)
  }

  /** `_to_datetime(string_date)`: one space between the date and the time,
      three `-`-separated numbers, three `:`-separated numbers, in that
      order of checks, then the `datetime` constructor. */
  function ToDatetime(text: string): (r: Result<DateTime, PyException>)
    ensures r.Success? ==> Valid(r.value)
    ensures r.Success? ==> |Split(text, ' ')| == 2
                           && |Split(Split(text, ' ')[0], '-')| == 3
                           && |Split(Split(text, ' ')[1], ':')| == 3
    ensures r.Failure? ==> r.error.ValueError?
  {
    match Unpack(Split(text, ' '), 2)
    case Failure(e) => Failure(e)
    case Success(halves) =>
      match ParseInts(Split(halves[0], '-'))
      case Failure(e) => Failure(e)
      case Success(dateInts) =>
        match Unpack(dateInts, 3)
        case Failure(e) => Failure(e)
        case Success(ymd) =>
          match ParseInts(Split(halves[1], ':'))
          case Failure(e) => Failure(e)
          case Success(timeInts) =>
            match Unpack(timeInts, 3)
            case Failure(e) => Failure(e)
            case Success(hms) => MakeDateTime(ymd[0], ymd[1], ymd[2], hms[0], hms[1], hms[2])
  }

  /** Six numbers written as `YYYY-MM-DD HH:MM:SS`, each zero-padded. */
  function Text(year: nat, month: nat, day: nat, hour: nat, minute: nat, second: nat): string {
    Padded(year, 4) + "-" + Padded(month, 2) + "-" + Padded(day, 2) + " "
      + Padded(hour, 2) + ":" + Padded(minute, 2) + ":" + Padded(second, 2)
  }

  /** `str(datetime)` for a value without microseconds. */
  function Format(d: DateTime): string
    requires Valid(d)
  {
    Text(d.year, d.month, d.day, d.hour, d.minute, d.second)
  }

  /** Digits contain no separator. */
  lemma DigitsHaveNo(s: string, c: char)
    requires AllDigits(s) && !IsDigit(c)
    ensures c !in s
  {
  }

  /** Three zero-padded numbers joined by a separator split back into the
      three. */
  lemma SplitThree(a: string, b: string, c: string, sep: char)
    requires AllDigits(a) && AllDigits(b) && AllDigits(c) && !IsDigit(sep)
    ensures Split(a + [sep] + b + [sep] + c, sep) == [a, b, c]
  {
    DigitsHaveNo(a, sep);
    DigitsHaveNo(b, sep);
    DigitsHaveNo(c, sep);
    SplitNone(c, sep);
    SplitAt(b, sep, c);
    assert a + [sep] + b + [sep] + c == a + [sep] + (b + [sep] + c);
    SplitAt(a, sep, b + [sep] + c);
  }

  /** A text with one space, three dates pieces and three time pieces, all
      numbers, is the `datetime` of those numbers. */
  lemma ToDatetimeOfPieces(text: string, date: string, time: string, ymd: seq<string>, hms: seq<string>)
    requires Split(text, ' ') == [date, time]
    requires Split(date, '-') == ymd && |ymd| == 3
    requires Split(time, ':') == hms && |hms| == 3
    requires forall i :: 0 <= i < 3 ==> ParseInt(ymd[i]).Success? && ParseInt(hms[i]).Success?
    ensures ToDatetime(text) == MakeDateTime(ParseInt(ymd[0]).value, ParseInt(ymd[1]).value, ParseInt(ymd[2]).value,
                                            ParseInt(hms[0]).value, ParseInt(hms[1]).value, ParseInt(hms[2]).value)
  {
    assert Unpack(Split(text, ' '), 2) == Success([date, time]);
    var d := ParseInts(ymd);
    var t := ParseInts(hms);
    assert d.Success? && t.Success?;
  }

  /** A text with one space, three numeric date pieces and fewer than
      three numeric time pieces fails when the time is unpacked. */
  lemma ToDatetimeShortTime(text: string, date: string, time: string, ymd: seq<string>, hms: seq<string>)
    requires Split(text, ' ') == [date, time]
    requires Split(date, '-') == ymd && |ymd| == 3
    requires Split(time, ':') == hms && |hms| < 3
    requires forall i :: 0 <= i < 3 ==> ParseInt(ymd[i]).Success?
    requires forall i :: 0 <= i < |hms| ==> ParseInt(hms[i]).Success?
    ensures ToDatetime(text) == Failure(ValueError("not enough values to unpack"))
  {
    assert Unpack(Split(text, ' '), 2) == Success([date, time]);
    var d := ParseInts(ymd);
    var t := ParseInts(hms);
    assert d.Success? && t.Success?;
  }

  /** The date and time halves of a written timestamp. */
  lemma TextPieces(year: nat, month: nat, day: nat, hour: nat, minute: nat, second: nat)
    ensures var date := Padded(year, 4) + "-" + Padded(month, 2) + "-" + Padded(day, 2);
            var time := Padded(hour, 2) + ":" + Padded(minute, 2) + ":" + Padded(second, 2);
            && Split(Text(year, month, day, hour, minute, second), ' ') == [date, time]
            && Split(date, '-') == [Padded(year, 4), Padded(month, 2), Padded(day, 2)]
            && Split(time, ':') == [Padded(hour, 2), Padded(minute, 2), Padded(second, 2)]
  {
    var y, mo, dd := Padded(year, 4), Padded(month, 2), Padded(day, 2);
    var h, mi, s := Padded(hour, 2), Padded(minute, 2), Padded(second, 2);
    var date := y + "-" + mo + "-" + dd;
    var time := h + ":" + mi + ":" + s;
    assert Text(year, month, day, hour, minute, second) == date + [' '] + time;
    assert date == y + ['-'] + mo + ['-'] + dd;
    assert time == h + [':'] + mi + [':'] + s;
    SplitThree(y, mo, dd, '-');
    SplitThree(h, mi, s, ':');
    SeparatorFree(y, mo, dd, '-', ' ');
    SeparatorFree(h, mi, s, ':', ' ');
    SplitNone(time, ' ');
    SplitAt(date, ' ', time);
  }

  /** Digits joined by one separator contain no other non-digit. */
  lemma SeparatorFree(a: string, b: string, c: string, sep: char, other: char)
    requires AllDigits(a) && AllDigits(b) && AllDigits(c) && !IsDigit(other) && sep != other
    ensures other !in a + [sep] + b + [sep] + c
  {
    DigitsHaveNo(a, other);
    DigitsHaveNo(b, other);
    DigitsHaveNo(c, other);
  }

  /** Reading six written numbers gives the `datetime` constructor's
      verdict on exactly those numbers: the text itself is never the
      reason for a failure. */
  lemma ReadText(year: nat, month: nat, day: nat, hour: nat, minute: nat, second: nat)
    ensures ToDatetime(Text(year, month, day, hour, minute, second)) == MakeDateTime(year, month, day, hour, minute, second)
  {
    var y, mo, dd := Padded(year, 4), Padded(month, 2), Padded(day, 2);
    var h, mi, s := Padded(hour, 2), Padded(minute, 2), Padded(second, 2);
    TextPieces(year, month, day, hour, minute, second);
    PaddedRoundTrip(year, 4);
    PaddedRoundTrip(month, 2);
    PaddedRoundTrip(day, 2);
    PaddedRoundTrip(hour, 2);
    PaddedRoundTrip(minute, 2);
    PaddedRoundTrip(second, 2);
    var ymd, hms := [y, mo, dd], [h, mi, s];
    forall i | 0 <= i < 3 ensures ParseInt(ymd[i]).Success? && ParseInt(hms[i]).Success? {
      if i == 0 {} else if i == 1 {} else {}
    }
    ToDatetimeOfPieces(Text(year, month, day, hour, minute, second), y + "-" + mo + "-" + dd, h + ":" + mi + ":" + s,
                       ymd, hms);
  }

  /** Reading a formatted timestamp gives back the timestamp. */
  lemma FormatRoundTrip(d: DateTime)
    requires Valid(d)
    ensures ToDatetime(Format(d)) == Success(d)
  {
    ReadText(d.year, d.month, d.day, d.hour, d.minute, d.second);
  }

  /** An ISO `T` separator is refused: there is no space to split at. */
  lemma RejectsIsoSeparator()
    ensures ToDatetime("2024-01-31T10:00:00") == Failure(ValueError("not enough values to unpack"))
  {
    SplitNone("2024-01-31T10:00:00", ' ');
  }

  /** The date and time halves of a timestamp written without seconds. */
  lemma ShortTextPieces(year: nat, month: nat, day: nat, hour: nat, minute: nat)
    ensures var date := Padded(year, 4) + "-" + Padded(month, 2) + "-" + Padded(day, 2);
            var time := Padded(hour, 2) + ":" + Padded(minute, 2);
            && Split(date + " " + Padded(hour, 2) + ":" + Padded(minute, 2), ' ') == [date, time]
            && Split(date, '-') == [Padded(year, 4), Padded(month, 2), Padded(day, 2)]
            && Split(time, ':') == [Padded(hour, 2), Padded(minute, 2)]
  {
    var y, mo, dd := Padded(year, 4), Padded(month, 2), Padded(day, 2);
    var h, mi := Padded(hour, 2), Padded(minute, 2);
    var date := y + "-" + mo + "-" + dd;
    var time := h + ":" + mi;
    assert date + " " + h + ":" + mi == date + [' '] + time;
    assert date == y + ['-'] + mo + ['-'] + dd;
    assert time == h + [':'] + mi;
    SplitThree(y, mo, dd, '-');
    SeparatorFree(y, mo, dd, '-', ' ');
    DigitsHaveNo(h, ' ');
    DigitsHaveNo(mi, ' ');
    DigitsHaveNo(mi, ':');
    SplitNone(time, ' ');
    SplitAt(date, ' ', time);
    SplitNone(mi, ':');
    SplitAt(h, ':', mi);
  }

  /** A time without seconds is refused when it is unpacked. */
  lemma RejectsMissingSeconds(year: nat, month: nat, day: nat, hour: nat, minute: nat)
    ensures var date := Padded(year, 4) + "-" + Padded(month, 2) + "-" + Padded(day, 2);
            ToDatetime(date + " " + Padded(hour, 2) + ":" + Padded(minute, 2))
              == Failure(ValueError("not enough values to unpack"))
  {
    var y, mo, dd := Padded(year, 4), Padded(month, 2), Padded(day, 2);
    var h, mi := Padded(hour, 2), Padded(minute, 2);
    var date := y + "-" + mo + "-" + dd;
    ShortTextPieces(year, month, day, hour, minute);
    PaddedRoundTrip(year, 4);
    PaddedRoundTrip(month, 2);
    PaddedRoundTrip(day, 2);
    PaddedRoundTrip(hour, 2);
    PaddedRoundTrip(minute, 2);
    var ymd, hm := [y, mo, dd], [h, mi];
    forall i | 0 <= i < 3 ensures ParseInt(ymd[i]).Success? {
      if i == 0 {} else if i == 1 {} else {}
    }
    forall i | 0 <= i < 2 ensures ParseInt(hm[i]).Success? {
      if i == 0 {} else {}
    }
    ToDatetimeShortTime(date + " " + h + ":" + mi, date, h + ":" + mi, ymd, hm);
  }

  /** The 30th of February is refused by the `datetime` constructor. */
  lemma RejectsImpossibleDay(hour: nat, minute: nat, second: nat)
    ensures ToDatetime(Text(2024, 2, 30, hour, minute, second)) == Failure(ValueError("day is out of range for month"))
  {
    ReadText(2024, 2, 30, hour, minute, second);
  }
}
