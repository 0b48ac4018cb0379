/**
 `getFormattedDate()`: today's date as `MM/DD/YYYY`, built from
 `Number.prototype.toString` and `String.prototype.padStart(2, "0")`. The clock
 reading is a parameter: the calendar year, the zero-based month and the day.
 */
module DateFormat {
  import opened Wrappers
  import opened Chars

  function DigitChar(d: nat): (c: char)
    requires d < 10
    ensures IsDigit(c) && c as int - '0' as int == d
  {
    ('0' as int + d) as char
  }

  function DigitValue(c: char): nat
    requires IsDigit(c)
  {
    c as int - '0' as int
  }

  /** `n.toString()` for a non-negative integer: decimal digits, no leading zero. */
  function NatToString(n: nat): (s: string)
    ensures |s| >= 1 && AllDigits(s)
    ensures |s| > 1 ==> s[0] != '0'
    ensures n < 10 <==> |s| == 1
    decreases n
  {
    if n < 10 then [DigitChar(n)]
    else NatToString(n / 10) + [DigitChar(n % 10)]
  }

  /** The value of a string of decimal digits (0 for the empty string). */
  function ParseNat(s: string): nat
    requires AllDigits(s)
    decreases |s|
  {
    if |s| == 0 then 0
    else ParseNat(s[..|s| - 1]) * 10 + DigitValue(s[|s| - 1])
  }

  /** Reading back a printed number gives the number. */
  lemma {:induction false} ParseNatToString(n: nat)
    ensures ParseNat(NatToString(n)) == n
    decreases n
  {
    var s := NatToString(n);
    if n >= 10 {
      assert s[..|s| - 1] == NatToString(n / 10);
      ParseNatToString(n / 10);
    }
  }

  /** A leading zero does not change the value. */
  lemma {:induction false} ParseNatLeadingZero(s: string)
    requires AllDigits(s)
    ensures ParseNat("0" + s) == ParseNat(s)
    decreases |s|
  {
    if |s| > 0 {
      assert ("0" + s)[..|s|] == "0" + s[..|s| - 1];
      ParseNatLeadingZero(s[..|s| - 1]);
    } else {
      assert ("0" + s)[..0] == "";
    }
  }

  /** `n.toString()` for any integer: a minus sign before the digits of a negative number. */
  function IntToString(n: int): (s: string)
    ensures |s| >= 1
    ensures n < 0 <==> s[0] == '-'
  {
    if n < 0 then "-" + NatToString(-n) else NatToString(n)
  }

  /** Reads back what `IntToString` prints; `None` for anything else. */
  function ParseInt(s: string): Option<int> {
    if 1 < |s| && s[0] == '-' && AllDigits(s[1..]) then Some(0 - ParseNat(s[1..]))
    else if 0 < |s| && AllDigits(s) then Some(ParseNat(s))
    else None
  }

  lemma ParseIntToString(n: int)
    ensures ParseInt(IntToString(n)) == Some(n)
  {
    if n < 0 {
      var d := NatToString(-n);
      var s := "-" + d;
      assert s[1..] == d;
      ParseNatToString(-n);
      assert ParseInt(s) == Some(0 - ParseNat(d));
    } else {
      var s := NatToString(n);
      assert s[0] != '-' by {
        assert IsDigit(s[0]);
      }
      ParseNatToString(n);
      assert ParseInt(s) == Some(ParseNat(s));
    }
  }

  function Repeat(c: char, count: nat): (r: string)
    ensures |r| == count && forall k :: 0 <= k < count ==> r[k] == c
  {
    seq(count, _ => c)
  }

  /** `s.padStart(width, fill)` with a one-character fill. */
  function PadStart(s: string, width: nat, fill: char): (r: string)
    ensures |r| == if |s| >= width then |s| else width
    ensures r[|r| - |s|..] == s
    ensures forall k :: 0 <= k < |r| - |s| ==> r[k] == fill
  {
    if |s| >= width then s else Repeat(fill, width - |s|) + s
  }

  /** `getFormattedDate()` for the given clock reading (`month0` counts from 0, as `getMonth()` does). */
  function FormattedDate(year: int, month0: int, day: int): (r: string)
    ensures var y := IntToString(year); |r| >= 6 + |y| && r[|r| - |y|..] == y && r[|r| - |y| - 1] == '/'
    ensures -1 <= month0 < 99 && 0 <= day < 100 ==> |r| == 6 + |IntToString(year)| && r[2] == '/' && r[5] == '/'
  {
    var mm := PadStart(IntToString(1 + month0), 2, '0');
    var dd := PadStart(IntToString(day), 2, '0');
    FieldWidth(1 + month0);
    FieldWidth(day);
    Joined(mm, dd, IntToString(year));
    mm + "/" + dd + "/" + IntToString(year)
  }

  /** The separators of `mm/dd/yy` follow the fields, and the year ends it. */
  lemma Joined(mm: string, dd: string, yy: string)
    ensures var s := mm + "/" + dd + "/" + yy;
      && |s| == |mm| + |dd| + |yy| + 2 && s[|s| - |yy|..] == yy && s[|s| - |yy| - 1] == '/'
      && s[|mm|] == '/' && s[|mm| + |dd| + 1] == '/'
  {
    var s := mm + "/" + dd + "/" + yy;
    assert s == (mm + "/" + dd + "/") + yy;
  }

  /** A field below 100 pads to exactly two characters. */
  lemma FieldWidth(n: int)
    ensures 0 <= n < 100 ==> |PadStart(IntToString(n), 2, '0')| == 2
  {
    if 10 <= n < 100 {
      assert NatToString(n) == NatToString(n / 10) + [DigitChar(n % 10)];
    }
  }

  /** Reads `MM/DD/YYYY` back into a clock reading. */
  function ParseDate(s: string): Option<(int, int, int)> {
    if |s| >= 7 && s[2] == '/' && s[5] == '/' && AllDigits(s[..2]) && AllDigits(s[3..5]) then
      match ParseInt(s[6..])
      case Some(year) => Some((year, ParseNat(s[..2]) - 1, ParseNat(s[3..5])))
      case None => None
    else
      None
  }

  /** A number from 1 to 99 printed and padded to two digits reads back as itself. */
  lemma TwoDigitsRoundTrip(n: int)
    requires 1 <= n <= 99
    ensures var p := PadStart(IntToString(n), 2, '0');
      |p| == 2 && AllDigits(p) && ParseNat(p) == n
  {
    var s := NatToString(n);
    ParseNatToString(n);
    if n < 10 {
      assert PadStart(s, 2, '0') == "0" + s;
      ParseNatLeadingZero(s);
    } else {
      assert |s| == 2 by {
        assert s == NatToString(n / 10) + [DigitChar(n % 10)];
      }
    }
  }

  /** Parsing a date assembled from two-digit month and day fields and a printed year. */
  lemma ParseDateOfFields(mm: string, dd: string, yy: string)
    requires |mm| == 2 && |dd| == 2 && AllDigits(mm) && AllDigits(dd) && ParseInt(yy).Some?
    ensures ParseDate(mm + "/" + dd + "/" + yy) == Some((ParseInt(yy).value, ParseNat(mm) - 1, ParseNat(dd)))
  {
    var s := mm + "/" + dd + "/" + yy;
    assert s[..2] == mm && s[3..5] == dd && s[6..] == yy;
    assert s[2] == '/' && s[5] == '/';
  }

  /**
   For every valid month and day, the formatted date has the separators at
   positions 2 and 5, the month and day in two digits each, and reads back as
   the clock reading it came from.
   */
  lemma FormattedDateRoundTrip(year: int, month0: int, day: int)
    requires 0 <= month0 < 12 && 1 <= day <= 31
    ensures |FormattedDate(year, month0, day)| == 6 + |IntToString(year)|
    ensures FormattedDate(year, month0, day)[2] == '/' && FormattedDate(year, month0, day)[5] == '/'
    ensures ParseDate(FormattedDate(year, month0, day)) == Some((year, month0, day))
  {
    var mm := PadStart(IntToString(1 + month0), 2, '0');
    var dd := PadStart(IntToString(day), 2, '0');
    var yy := IntToString(year);
    TwoDigitsRoundTrip(1 + month0);
    TwoDigitsRoundTrip(day);
    ParseIntToString(year);
    ParseDateOfFields(mm, dd, yy);
    assert FormattedDate(year, month0, day) == mm + "/" + dd + "/" + yy;
  }

  /** Single-digit months and days gain a leading zero. */
  lemma PadsSingleDigits()
    ensures FormattedDate(2026, 2, 7) == "03/07/2026"
  {
    assert NatToString(2026) == "2026" by {
      assert NatToString(2) == "2";
      assert NatToString(20) == "20";
      assert NatToString(202) == "202";
    }
  }
}
