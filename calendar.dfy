/**
 * Wall-clock readings and their text forms: the deadline widget's
 * `%Y-%m-%dT%H:%M:%S` / `%Y-%m-%dT%H:%M` formats and the text a datetime
 * column is stored and searched as.
 */
module Calendar {
  import opened Wrappers

  /** A reading of the server's clock or a submitted deadline, to the second. */
  datatype DateTime = DateTime(year: int, month: int, day: int, hour: int, minute: int, second: int)

  predicate IsLeapYear(y: int) {
    y % 4 == 0 && (y % 100 != 0 || y % 400 == 0)
  }

  function DaysInMonth(y: int, m: int): (n: int)
    requires 1 <= m <= 12
    ensures 28 <= n <= 31
    ensures n == 29 <==> m == 2 && IsLeapYear(y)
  {
    if m == 2 then (if IsLeapYear(y) then 29 else 28)
    else if m == 4 || m == 6 || m == 9 || m == 11 then 30
    else 31
  }

  /** The readings a Python `datetime` can hold (years 1 to 9999, real calendar days). */
  predicate Valid(t: DateTime) {
    && 1 <= t.year <= 9999
    && 1 <= t.month <= 12
    && 1 <= t.day <= DaysInMonth(t.year, t.month)
    && 0 <= t.hour < 24
    && 0 <= t.minute < 60
    && 0 <= t.second < 60
  }

  /** Position of a reading on the time line; readings are compared by it. */
  function Ticks(t: DateTime): int {
    ((((t.year * 12 + t.month) * 31 + t.day) * 24 + t.hour) * 60 + t.minute) * 60 + t.second
  }

  /** Calendar order: year first, then month, day, hour, minute, second. */
  predicate Earlier(a: DateTime, b: DateTime) {
    || a.year < b.year
    || (a.year == b.year && a.month < b.month)
    || (a.year == b.year && a.month == b.month && a.day < b.day)
    || (a.year == b.year && a.month == b.month && a.day == b.day && a.hour < b.hour)
    || (a.year == b.year && a.month == b.month && a.day == b.day && a.hour == b.hour && a.minute < b.minute)
    || (a.year == b.year && a.month == b.month && a.day == b.day && a.hour == b.hour && a.minute == b.minute
        && a.second < b.second)
  }

  /** On valid readings, comparing ticks is comparing in calendar order. */
  lemma TicksOrder(a: DateTime, b: DateTime)
    requires Valid(a) && Valid(b)
    ensures Ticks(a) < Ticks(b) <==> Earlier(a, b)
    ensures Ticks(a) == Ticks(b) <==> a == b
  {
    var da := ((a.year * 12 + a.month) * 31 + a.day) * 24 + a.hour;
    var db := ((b.year * 12 + b.month) * 31 + b.day) * 24 + b.hour;
    assert Ticks(a) == (da * 60 + a.minute) * 60 + a.second;
    assert Ticks(b) == (db * 60 + b.minute) * 60 + b.second;
    var ma := (a.year * 12 + a.month) * 31 + a.day;
    var mb := (b.year * 12 + b.month) * 31 + b.day;
    assert da == ma * 24 + a.hour && db == mb * 24 + b.hour;
    assert ma < mb <==> (a.year < b.year || (a.year == b.year && a.month < b.month)
                         || (a.year == b.year && a.month == b.month && a.day < b.day));
  }

  // ---- digits ----

  predicate IsDigit(c: char) {
    '0' <= c <= '9'
  }

  function DigitChar(d: int): (c: char)
    requires 0 <= d < 10
    ensures IsDigit(c)
  {
    (48 + d) as char
  }

  function DigitValue(c: char): (d: int)
    requires IsDigit(c)
    ensures 0 <= d < 10 && DigitChar(d) == c
  {
    c as int - 48
  }

  /** Value of a two-digit field. */
  function Number2(s: string): int
    requires |s| == 2 && IsDigit(s[0]) && IsDigit(s[1])
  {
    DigitValue(s[0]) * 10 + DigitValue(s[1])
  }

  /** Value of a four-digit field: two two-digit halves. */
  function Number4(s: string): int
    requires |s| == 4 && IsDigit(s[0]) && IsDigit(s[1]) && IsDigit(s[2]) && IsDigit(s[3])
  {
    Number2(s[..2]) * 100 + Number2(s[2..])
  }

  /** `n` written with exactly two digits (the low two digits of `n`). */
  function Pad2(n: int): (s: string)
    ensures |s| == 2 && IsDigit(s[0]) && IsDigit(s[1])
  {
    var k := n % 100;
    [DigitChar(k / 10), DigitChar(k % 10)]
  }

  /** `n` written with exactly four digits (the low four digits of `n`). */
  function Pad4(n: int): (s: string)
    ensures |s| == 4 && IsDigit(s[0]) && IsDigit(s[1]) && IsDigit(s[2]) && IsDigit(s[3])
  {
    var k := n % 10000;
    Pad2(k / 100) + Pad2(k % 100)
  }

  lemma Pad2Number(n: int)
    requires 0 <= n < 100
    ensures Number2(Pad2(n)) == n
  {
  }

  lemma NumberPad2(s: string)
    requires |s| == 2 && IsDigit(s[0]) && IsDigit(s[1])
    ensures 0 <= Number2(s) < 100 && Pad2(Number2(s)) == s
  {
  }

  lemma DivMod100(a: int, b: int)
    requires 0 <= a < 100 && 0 <= b < 100
    ensures (a * 100 + b) % 10000 == a * 100 + b
    ensures (a * 100 + b) / 100 == a && (a * 100 + b) % 100 == b
  {
  }

  lemma Pad4Number(n: int)
    requires 0 <= n < 10000
    ensures Number4(Pad4(n)) == n
  {
    var a, b := n / 100, n % 100;
    assert n == a * 100 + b && 0 <= a < 100 && 0 <= b < 100;
    DivMod100(a, b);
    var s := Pad4(n);
    assert s[..2] == Pad2(a) && s[2..] == Pad2(b);
    Pad2Number(a);
    Pad2Number(b);
  }

  lemma NumberPad4(s: string)
    requires |s| == 4 && IsDigit(s[0]) && IsDigit(s[1]) && IsDigit(s[2]) && IsDigit(s[3])
    ensures 0 <= Number4(s) < 10000 && Pad4(Number4(s)) == s
  {
    var a, b := Number2(s[..2]), Number2(s[2..]);
    NumberPad2(s[..2]);
    NumberPad2(s[2..]);
    var n := a * 100 + b;
    DivMod100(a, b);
    assert Pad4(n) == Pad2(a) + Pad2(b);
    assert s == s[..2] + s[2..];
  }

  // ---- text forms ----

  /** `YYYY-MM-DD<sep>HH:MM` followed by `:SS` when `seconds` holds. */
  function Format(t: DateTime, sep: char, seconds: bool): string {
    Pad4(t.year) + "-" + Pad2(t.month) + "-" + Pad2(t.day) + [sep]
    + Pad2(t.hour) + ":" + Pad2(t.minute) + (if seconds then ":" + Pad2(t.second) else "")
  }

  predicate DigitsAt(s: string, i: nat, n: nat) {
    i + n <= |s| && forall k :: i <= k < i + n ==> IsDigit(s[k])
  }

  /** `s` has the layout `####-##-##<sep>##:##`, then `:##` when `seconds` holds (`#` a digit). */
  predicate Fits(s: string, sep: char, seconds: bool) {
    && |s| == (if seconds then 19 else 16)
    && DigitsAt(s, 0, 4) && s[4] == '-' && DigitsAt(s, 5, 2) && s[7] == '-' && DigitsAt(s, 8, 2)
    && s[10] == sep && DigitsAt(s, 11, 2) && s[13] == ':' && DigitsAt(s, 14, 2)
    && (seconds ==> s[16] == ':' && DigitsAt(s, 17, 2))
  }

  /** Reads `s` in the format `Format(_, sep, seconds)`; a missing seconds field reads as 0. */
  function ParseFormat(s: string, sep: char, seconds: bool): (r: Option<DateTime>)
    ensures r.Some? ==> Valid(r.value) && Fits(s, sep, seconds)
  {
    if !Fits(s, sep, seconds) then None
    else
      var t := DateTime(Number4(s[0..4]), Number2(s[5..7]), Number2(s[8..10]), Number2(s[11..13]),
                        Number2(s[14..16]), if seconds then Number2(s[17..19]) else 0);
      if Valid(t) then Some(t) else None
  }

  lemma FormatFits(t: DateTime, sep: char, seconds: bool)
    requires Valid(t)
    ensures Fits(Format(t, sep, seconds), sep, seconds)
  {
    Pad4Number(t.year);
    Pad2Number(t.month);
    Pad2Number(t.day);
    Pad2Number(t.hour);
    Pad2Number(t.minute);
    Pad2Number(t.second);
  }

  /** Reading back what was written gives the same reading (seconds kept only in the long form). */
  lemma {:induction false} ParseFormatRoundTrip(t: DateTime, sep: char, seconds: bool)
    requires Valid(t)
    requires !seconds ==> t.second == 0
    ensures ParseFormat(Format(t, sep, seconds), sep, seconds) == Some(t)
  {
    var s := Format(t, sep, seconds);
    FormatFits(t, sep, seconds);
    Pad4Number(t.year);
    Pad2Number(t.month);
    Pad2Number(t.day);
    Pad2Number(t.hour);
    Pad2Number(t.minute);
    Pad2Number(t.second);
    assert s[0..4] == Pad4(t.year);
    assert s[5..7] == Pad2(t.month);
    assert s[8..10] == Pad2(t.day);
    assert s[11..13] == Pad2(t.hour);
    assert s[14..16] == Pad2(t.minute);
    if seconds {
      assert s[17..19] == Pad2(t.second);
    }
  }

  /** Every accepted text is the canonical writing of what it reads as. */
  lemma {:induction false} ParseFormatCanonical(s: string, sep: char, seconds: bool)
    requires ParseFormat(s, sep, seconds).Some?
    ensures Format(ParseFormat(s, sep, seconds).value, sep, seconds) == s
  {
    assert Fits(s, sep, seconds);
    var t := ParseFormat(s, sep, seconds).value;
    NumberPad4(s[0..4]);
    NumberPad2(s[5..7]);
    NumberPad2(s[8..10]);
    NumberPad2(s[11..13]);
    NumberPad2(s[14..16]);
    var tail := if seconds then ":" + Pad2(t.second) else "";
    if seconds {
      NumberPad2(s[17..19]);
      assert tail == s[16..19];
    } else {
      assert tail == s[16..];
    }
    assert s == s[0..4] + "-" + s[5..7] + "-" + s[8..10] + [sep] + s[11..13] + ":" + s[14..16] + s[16..];
  }
}
