/** The date-of-birth check of the profile update (`routes/user.js`): the regular expression
    `dobRegex` as the code writes it, the `exec` search, the full-match comparison, and the
    "in the past" comparison; beside them an independent calendar definition they are
    proved to agree with. */
module Dates {
  import opened Js

  // ---------------------------------------------------------------------------------
  // The regular expression, piece by piece. Each alternative matches exactly ten
  // characters, so the expression is a predicate on a ten-character window.

  predicate NonZeroDigit(c: char) { '1' <= c <= '9' }

  /** `0[1-9]|1[0-2]`: any month. */
  predicate AnyMonth(a: char, b: char)
  {
    (a == '0' && NonZeroDigit(b)) || (a == '1' && '0' <= b <= '2')
  }

  /** `0[13-9]|1[0-2]`: any month but February. */
  predicate NotFebruary(a: char, b: char)
  {
    (a == '0' && (b == '1' || '3' <= b <= '9')) || (a == '1' && '0' <= b <= '2')
  }

  /** `0[13578]|1[02]`: the 31-day months. */
  predicate LongMonth(a: char, b: char)
  {
    (a == '0' && (b == '1' || b == '3' || b == '5' || b == '7' || b == '8')) || (a == '1' && (b == '0' || b == '2'))
  }

  /** `0[1-9]|1\d|2[0-8]`: days 1 to 28. */
  predicate CommonDay(a: char, b: char)
  {
    (a == '0' && NonZeroDigit(b)) || (a == '1' && IsDigit(b)) || (a == '2' && '0' <= b <= '8')
  }

  /** `0[48]|[2468][048]|[13579][26]`. */
  predicate LeapPair(a: char, b: char)
  {
    || (a == '0' && (b == '4' || b == '8'))
    || ((a == '2' || a == '4' || a == '6' || a == '8') && (b == '0' || b == '4' || b == '8'))
    || ((a == '1' || a == '3' || a == '5' || a == '7' || a == '9') && (b == '2' || b == '6'))
  }

  /** `[2468][048]|[13579][26]`: `LeapPair` without its `0[48]` branch. */
  predicate LeapCentury(a: char, b: char)
  {
    LeapPair(a, b) && a != '0'
  }

  /** `[1-9]\d{3}\-(?:(?:0[1-9]|1[0-2])\-(?:0[1-9]|1\d|2[0-8])|(?:0[13-9]|1[0-2])\-(?:29|30)|(?:0[13578]|1[02])\-31)` */
  predicate CommonDateWindow(w: string)
    requires |w| == 10
  {
    && NonZeroDigit(w[0]) && IsDigit(w[1]) && IsDigit(w[2]) && IsDigit(w[3]) && w[4] == '-' && w[7] == '-'
    && (|| (AnyMonth(w[5], w[6]) && CommonDay(w[8], w[9]))
        || (NotFebruary(w[5], w[6]) && ((w[8] == '2' && w[9] == '9') || (w[8] == '3' && w[9] == '0')))
        || (LongMonth(w[5], w[6]) && w[8] == '3' && w[9] == '1'))
  }

  /** `(?:[1-9]\d(?:0[48]|[2468][048]|[13579][26])|(?:[2468][048]|[13579][26])00)\-02\-29` */
  predicate LeapDayWindow(w: string)
    requires |w| == 10
  {
    && ((NonZeroDigit(w[0]) && IsDigit(w[1]) && LeapPair(w[2], w[3])) || (LeapCentury(w[0], w[1]) && w[2] == '0' && w[3] == '0'))
    && w[4..] == "-02-29"
  }

  predicate DobWindow(w: string)
    requires |w| == 10
  {
    CommonDateWindow(w) || LeapDayWindow(w)
  }

  /** The expression matches at position `k` of `s`. */
  predicate MatchAt(s: string, k: int)
  {
    0 <= k && k + 10 <= |s| && DobWindow(s[k..k + 10])
  }

  /** `dobRegex.exec(s)` on a freshly built regex (so `lastIndex` is 0): the leftmost start
      of a match, or `null`. */
  function Exec(s: string, from: nat): (r: Option<nat>)
    requires from <= |s|
    ensures r.Some? ==> from <= r.value && MatchAt(s, r.value)
    ensures r.Some? ==> forall k :: from <= k < r.value ==> !MatchAt(s, k)
    ensures r.None? ==> forall k :: from <= k ==> !MatchAt(s, k)
    decreases |s| - from
  {
    if from + 10 > |s| then None
    else if DobWindow(s[from..from + 10]) then Some(from)
    else Exec(s, from + 1)
  }

  /** `!dobResult || dobResult[0] !== dobResult.input` fails: the match found is the whole input. */
  function DobAccepted(s: string): (ok: bool)
    ensures ok <==> |s| == 10 && MatchAt(s, 0)
  {
    match Exec(s, 0)
    case None => false
    case Some(i) => s[i..i + 10] == s
  }

  // ---------------------------------------------------------------------------------
  // The calendar, stated independently of the expression.

  predicate LeapYear(y: int)
  {
    y % 4 == 0 && (y % 100 != 0 || y % 400 == 0)
  }

  function DaysInMonth(y: int, m: int): int
    requires 1 <= m <= 12
  {
    if m == 2 then (if LeapYear(y) then 29 else 28)
    else if m == 4 || m == 6 || m == 9 || m == 11 then 30
    else 31
  }

  /** `YYYY-MM-DD` naming a real Gregorian day of a year from 1000 to 9999. */
  predicate IsCalendarDate(s: string)
  {
    && |s| == 10 && s[4] == '-' && s[7] == '-'
    && AllDigits(s[..4]) && AllDigits(s[5..7]) && AllDigits(s[8..])
    && var y, m, d := ParseDecimal(s[..4]), ParseDecimal(s[5..7]), ParseDecimal(s[8..]);
       1000 <= y <= 9999 && 1 <= m <= 12 && 1 <= d <= DaysInMonth(y, m)
  }

  datatype Date = Date(year: int, month: int, day: int)

  /** `split("-").map(parseInt)` of an accepted date. */
  function DateOf(s: string): Date
    requires IsCalendarDate(s)
  {
    Date(ParseDecimal(s[..4]), ParseDecimal(s[5..7]), ParseDecimal(s[8..]))
  }

  /** Calendar order. */
  predicate After(a: Date, b: Date)
  {
    a.year > b.year || (a.year == b.year && (a.month > b.month || (a.month == b.month && a.day > b.day)))
  }

  /** `new Date(y, m - 1, d) > Date.now()`: local midnight of the date lies after the current
      instant exactly when the date is after today's local date, so a dob of today is in
      the past. */
  function InFuture(s: string, today: Date): (future: bool)
    requires IsCalendarDate(s)
    ensures future <==> After(DateOf(s), today)
    // today's own date is not in the future, and neither is any earlier one
    ensures DateOf(s) == today ==> !future
    ensures After(today, DateOf(s)) ==> !future
  {
    After(DateOf(s), today)
  }

  // ---------------------------------------------------------------------------------
  // The expression agrees with the calendar.

  /** Every alternative is ten characters long, so searching and comparing with the input
      amounts to the input being one window. */
  lemma AcceptedIsOneWindow(s: string)
    ensures DobAccepted(s) <==> |s| == 10 && DobWindow(s)
  {
    if |s| == 10 && DobWindow(s) {
      assert s[0..10] == s;
    }
    match Exec(s, 0)
    case None =>
    case Some(i) =>
      if s[i..i + 10] == s {
        assert |s| == 10 && i == 0 && s[0..10] == s;
      }
  }

  function Digit2(a: char, b: char): int
    requires IsDigit(a) && IsDigit(b)
  {
    10 * DigitValue(a) + DigitValue(b)
  }

  /** The month-day part of the common alternative is every real month-day but 29 February. */
  lemma CommonMonthDay(w: string)
    requires |w| == 10 && IsDigit(w[5]) && IsDigit(w[6]) && IsDigit(w[8]) && IsDigit(w[9])
    ensures var m, d := Digit2(w[5], w[6]), Digit2(w[8], w[9]);
            (|| (AnyMonth(w[5], w[6]) && CommonDay(w[8], w[9]))
             || (NotFebruary(w[5], w[6]) && ((w[8] == '2' && w[9] == '9') || (w[8] == '3' && w[9] == '0')))
             || (LongMonth(w[5], w[6]) && w[8] == '3' && w[9] == '1'))
            <==> 1 <= m <= 12 && 1 <= d <= DaysInMonth(1, m)
  {
  }

  /** Two digits modulo four depend only on the parity of the tens digit. */
  lemma TwoDigitsMod4(x: int, y: int)
    requires 0 <= x < 10 && 0 <= y < 10
    ensures (10 * x + y) % 4 == (2 * (x % 2) + y) % 4
  {
    var q, p := x / 2, x % 2;
    assert 10 * x + y == 4 * (5 * q + 2 * p) + (2 * p + y);
    ShiftMod4(5 * q + 2 * p, 2 * p + y);
  }

  lemma ShiftMod4(q: int, r: int)
    ensures (4 * q + r) % 4 == r % 4
  {
  }

  /** `0[48]|[2468][048]|[13579][26]` is "a nonzero multiple of four" on two digits. */
  lemma LeapPairValue(a: char, b: char)
    requires IsDigit(a) && IsDigit(b)
    ensures LeapPair(a, b) <==> Digit2(a, b) % 4 == 0 && Digit2(a, b) != 0
  {
    var x, y := DigitValue(a), DigitValue(b);
    TwoDigitsMod4(x, y);
    assert Digit2(a, b) == 10 * x + y;
    assert x % 2 == 0 <==> a == '0' || a == '2' || a == '4' || a == '6' || a == '8';
  }

  /** Four-digit year arithmetic: the Gregorian rule splits into the century digits and
      the last two digits. */
  lemma LeapYearByHalves(hi: int, lo: int)
    requires 10 <= hi <= 99 && 0 <= lo <= 99
    ensures LeapYear(100 * hi + lo) <==> (lo % 4 == 0 && lo != 0) || (lo == 0 && hi % 4 == 0)
  {
    var y := 100 * hi + lo;
    assert y % 4 == lo % 4 by { assert y == 4 * (25 * hi) + lo; }
    assert y % 100 == lo;
    if lo == 0 {
      assert y % 400 == 0 <==> hi % 4 == 0 by {
        assert y == 100 * hi;
        assert hi == 4 * (hi / 4) + hi % 4;
        assert y == 400 * (hi / 4) + 100 * (hi % 4);
      }
    }
  }

  /** The leap-year digits are the Gregorian rule on a year from 1000 to 9999. */
  lemma LeapDigits(w: string)
    requires |w| == 10 && NonZeroDigit(w[0]) && IsDigit(w[1]) && IsDigit(w[2]) && IsDigit(w[3])
    ensures ((NonZeroDigit(w[0]) && IsDigit(w[1]) && LeapPair(w[2], w[3])) || (LeapCentury(w[0], w[1]) && w[2] == '0' && w[3] == '0'))
            <==> LeapYear(1000 * DigitValue(w[0]) + 100 * DigitValue(w[1]) + 10 * DigitValue(w[2]) + DigitValue(w[3]))
  {
    var hi, lo := Digit2(w[0], w[1]), Digit2(w[2], w[3]);
    LeapPairValue(w[0], w[1]);
    LeapPairValue(w[2], w[3]);
    LeapYearByHalves(hi, lo);
    assert 1000 * DigitValue(w[0]) + 100 * DigitValue(w[1]) + 10 * DigitValue(w[2]) + DigitValue(w[3]) == 100 * hi + lo;
    assert lo == 0 <==> w[2] == '0' && w[3] == '0';
  }

  /** The character shape `dddd-dd-dd`. */
  predicate Shaped(w: string)
    requires |w| == 10
  {
    && IsDigit(w[0]) && IsDigit(w[1]) && IsDigit(w[2]) && IsDigit(w[3]) && w[4] == '-'
    && IsDigit(w[5]) && IsDigit(w[6]) && w[7] == '-' && IsDigit(w[8]) && IsDigit(w[9])
  }

  /** The calendar definition read off the characters. */
  lemma CalendarByDigits(w: string)
    requires |w| == 10
    ensures IsCalendarDate(w) <==>
              && Shaped(w) && NonZeroDigit(w[0])
              && var y := 100 * Digit2(w[0], w[1]) + Digit2(w[2], w[3]);
                 var m, d := Digit2(w[5], w[6]), Digit2(w[8], w[9]);
                 1 <= m <= 12 && 1 <= d <= DaysInMonth(y, m)
  {
    var shape := w[4] == '-' && w[7] == '-' && AllDigits(w[..4]) && AllDigits(w[5..7]) && AllDigits(w[8..]);
    assert shape <==> Shaped(w) by {
      assert forall i :: 0 <= i < 4 ==> w[..4][i] == w[i];
      assert forall i :: 0 <= i < 2 ==> w[5..7][i] == w[5 + i] && w[8..][i] == w[8 + i];
    }
    if Shaped(w) {
      ParseDecimal4(w[..4]);
      ParseDecimal2(w[5..7]);
      ParseDecimal2(w[8..]);
      assert ParseDecimal(w[..4]) == 100 * Digit2(w[0], w[1]) + Digit2(w[2], w[3]);
      assert 1000 <= ParseDecimal(w[..4]) <= 9999 <==> NonZeroDigit(w[0]);
    }
  }

  /** The leap-day alternative is 29 February of a Gregorian leap year. */
  lemma LeapDayByDigits(w: string)
    requires |w| == 10 && Shaped(w)
    ensures LeapDayWindow(w) <==>
              && NonZeroDigit(w[0]) && Digit2(w[5], w[6]) == 2 && Digit2(w[8], w[9]) == 29
              && LeapYear(100 * Digit2(w[0], w[1]) + Digit2(w[2], w[3]))
  {
    assert w[4..] == "-02-29" <==> w[5] == '0' && w[6] == '2' && w[8] == '2' && w[9] == '9' by {
      if w[5] == '0' && w[6] == '2' && w[8] == '2' && w[9] == '9' {
        assert w[4..] == [w[4], w[5], w[6], w[7], w[8], w[9]];
      }
    }
    if NonZeroDigit(w[0]) {
      LeapDigits(w);
      assert 1000 * DigitValue(w[0]) + 100 * DigitValue(w[1]) + 10 * DigitValue(w[2]) + DigitValue(w[3])
          == 100 * Digit2(w[0], w[1]) + Digit2(w[2], w[3]);
    } else {
      assert !LeapCentury(w[0], w[1]);
    }
  }

  /** On a ten-character window the expression is the calendar. */
  lemma WindowIffCalendar(w: string)
    requires |w| == 10
    ensures DobWindow(w) <==> IsCalendarDate(w)
  {
    CalendarByDigits(w);
    if Shaped(w) {
      CommonMonthDay(w);
      LeapDayByDigits(w);
      var m := Digit2(w[5], w[6]);
      if 1 <= m <= 12 {
        var y := 100 * Digit2(w[0], w[1]) + Digit2(w[2], w[3]);
        assert DaysInMonth(y, m) == DaysInMonth(1, m) || (m == 2 && LeapYear(y) && DaysInMonth(y, m) == 29);
      }
    } else {
      assert !CommonDateWindow(w);
    }
  }

  /** The validator accepts a string exactly when it is a real calendar date. */
  lemma DobAcceptedIffCalendarDate(s: string)
    ensures DobAccepted(s) <==> IsCalendarDate(s)
  {
    AcceptedIsOneWindow(s);
    if |s| == 10 {
      WindowIffCalendar(s);
    }
  }

  /** The dates the validator is documented to accept and refuse. */
  lemma LeapDayExamples()
    ensures DobAccepted("2000-02-29") && DobAccepted("2024-02-29")
  {
    AcceptedIsOneWindow("2000-02-29");
    AcceptedIsOneWindow("2024-02-29");
  }

  lemma NonLeapDayExamples()
    ensures !DobAccepted("1900-02-29") && !DobAccepted("2023-02-29")
  {
    AcceptedIsOneWindow("1900-02-29");
    AcceptedIsOneWindow("2023-02-29");
  }

  lemma InvalidDateExamples()
    ensures !DobAccepted("2024-02-30") && !DobAccepted("2024-13-01") && !DobAccepted("0999-12-31")
  {
    AcceptedIsOneWindow("2024-02-30");
    AcceptedIsOneWindow("2024-13-01");
    AcceptedIsOneWindow("0999-12-31");
  }

  /** A valid date with anything around it is refused: the match must be the whole input. */
  lemma SurroundedDateRefused(s: string, c: char)
    requires IsCalendarDate(s)
    ensures !DobAccepted([c] + s) && !DobAccepted(s + [c])
  {
    AcceptedIsOneWindow([c] + s);
    AcceptedIsOneWindow(s + [c]);
  }
}
