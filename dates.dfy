/** Calendar dates as `strftime("%d-%m-%Y")` renders them (the PrivatBank
    statement API's date parameters). */
module CivilDates {
  import opened PyText

  /** A date of the proleptic Gregorian calendar inside `datetime`'s range. */
  datatype CivilDate = CivilDate(day: nat, month: nat, year: nat)

  predicate ValidDate(d: CivilDate) {
    1 <= d.day <= 31 && 1 <= d.month <= 12 && 1 <= d.year <= 9999
  }

  predicate AllDigits(s: string) {
    forall i | 0 <= i < |s| :: '0' <= s[i] <= '9'
  }

  /** `n` in decimal, zero-filled on the left to `width` characters, as the
      `%d`, `%m` and `%Y` directives print it. */
  function ZeroPad(n: nat, width: nat): (s: string)
    ensures AllDigits(s)
    ensures |s| >= width
    decreases width
  {
    if |NatDigits(n)| >= width then NatDigits(n) else "0" + ZeroPad(n, width - 1)
  }

  /** Leading zeros do not change the number a string of digits denotes. */
  lemma {:induction false} LeadingZero(s: string)
    requires AllDigits(s)
    ensures AllDigits("0" + s) && ParseNat("0" + s) == ParseNat(s)
    decreases |s|
  {
    var z := "0" + s;
    if s == [] {
      assert z[..0] == [];
    } else {
      assert z[..|z| - 1] == "0" + s[..|s| - 1];
      LeadingZero(s[..|s| - 1]);
    }
  }

  lemma {:induction false} ZeroPadValue(n: nat, width: nat)
    ensures ParseNat(ZeroPad(n, width)) == n
    decreases width
  {
    if |NatDigits(n)| >= width {
      NatDigitsRoundTrip(n);
    } else {
      ZeroPadValue(n, width - 1);
      var p := ZeroPad(n, width - 1);
      assert ZeroPad(n, width) == "0" + p;
      LeadingZero(p);
    }
  }

  /** Below `10^width`, the padded text is exactly `width` long. */
  lemma {:induction false} ZeroPadWidth(n: nat, width: nat)
    requires 1 <= width && n < Pow10(width)
    ensures |ZeroPad(n, width)| == width
    decreases width
  {
    DigitsFit(n, width);
    if |NatDigits(n)| < width {
      if n >= Pow10(width - 1) {
        DigitsCount(n, width - 1);
      } else if width > 1 {
        ZeroPadWidth(n, width - 1);
        assert ZeroPad(n, width) == "0" + ZeroPad(n, width - 1);
      }
    }
  }

  /** A natural below `10^k` has at most `k` digits (at least one). */
  lemma {:induction false} DigitsFit(n: nat, k: nat)
    requires n < Pow10(k)
    ensures |NatDigits(n)| <= if k == 0 then 1 else k
    decreases k
  {
    if n >= 10 {
      DigitsFit(n / 10, k - 1);
    }
  }

  /** A natural at or above `10^k` has more than `k` digits. */
  lemma {:induction false} DigitsCount(n: nat, k: nat)
    requires n >= Pow10(k)
    ensures |NatDigits(n)| > k
    decreases k
  {
    if k > 0 {
      DigitsCount(n / 10, k - 1);
    }
  }

  /** `date.strftime("%d-%m-%Y")`. */
  function FormatDate(d: CivilDate): (s: string)
    requires ValidDate(d)
    ensures |s| == 10 && s[2] == '-' && s[5] == '-'
    ensures AllDigits(s[..2]) && AllDigits(s[3..5]) && AllDigits(s[6..])
  {
    ZeroPadWidth(d.day, 2);
    ZeroPadWidth(d.month, 2);
    ZeroPadWidth(d.year, 4);
    var s := ZeroPad(d.day, 2) + "-" + ZeroPad(d.month, 2) + "-" + ZeroPad(d.year, 4);
    assert s[..2] == ZeroPad(d.day, 2) && s[3..5] == ZeroPad(d.month, 2) && s[6..] == ZeroPad(d.year, 4);
    s
  }

  /** Reading a `DD-MM-YYYY` text back. */
  function ParseDate(s: string): CivilDate
    requires |s| == 10 && AllDigits(s[..2]) && AllDigits(s[3..5]) && AllDigits(s[6..])
  {
    CivilDate(ParseNat(s[..2]), ParseNat(s[3..5]), ParseNat(s[6..]))
  }

  /** The rendering loses nothing: the date can be read back from its text,
      so different dates are sent as different parameters. */
  lemma FormatDateRoundTrip(d: CivilDate)
    requires ValidDate(d)
    ensures ParseDate(FormatDate(d)) == d
  {
    ZeroPadWidth(d.day, 2);
    ZeroPadWidth(d.month, 2);
    ZeroPadWidth(d.year, 4);
    var s := FormatDate(d);
    assert s[..2] == ZeroPad(d.day, 2) && s[3..5] == ZeroPad(d.month, 2) && s[6..] == ZeroPad(d.year, 4);
    ZeroPadValue(d.day, 2);
    ZeroPadValue(d.month, 2);
    ZeroPadValue(d.year, 4);
  }
}
