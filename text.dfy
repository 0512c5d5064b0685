/** Python's `str()` of an int and `str.join`, which several mappers
    and the SQL renderer use. */
module PyText {
  function DigitChar(d: nat): (c: char)
    requires d < 10
    ensures '0' <= c <= '9'
  {
    ('0' as int + d) as char
  }

  /** The decimal digits of `n`, most significant first, without leading zeros. */
  function NatDigits(n: nat): (s: string)
    ensures |s| >= 1
    ensures forall i | 0 <= i < |s| :: '0' <= s[i] <= '9'
    decreases n
  {
    if n < 10 then [DigitChar(n)] else NatDigits(n / 10) + [DigitChar(n % 10)]
  }

  /** `10 ** k`. */
  function Pow10(k: nat): (p: nat)
    ensures p >= 1
  {
    if k == 0 then 1 else 10 * Pow10(k - 1)
  }

  /** `str(i)` for an int. */
  function IntText(i: int): (s: string)
    ensures |s| >= 1
  {
    if i < 0 then "-" + NatDigits(-i) else NatDigits(i)
  }

  function DigitValue(c: char): nat
    requires '0' <= c <= '9'
  {
    (c as int - '0' as int) as nat
  }

  /** The number a string of decimal digits denotes. */
  function ParseNat(s: string): nat
    requires forall i | 0 <= i < |s| :: '0' <= s[i] <= '9'
  {
    if s == [] then 0 else ParseNat(s[..|s| - 1]) * 10 + DigitValue(s[|s| - 1])
  }

  /** `int(s)` on a string `str(i)` produced. */
  function ParseInt(s: string): int
    requires |s| >= 1
    requires s[0] == '-' ==> forall i | 1 <= i < |s| :: '0' <= s[i] <= '9'
    requires s[0] != '-' ==> forall i | 0 <= i < |s| :: '0' <= s[i] <= '9'
  {
    if s[0] == '-' then -(ParseNat(s[1..]) as int) else ParseNat(s)
  }

  lemma {:induction false} NatDigitsRoundTrip(n: nat)
    ensures ParseNat(NatDigits(n)) == n
    decreases n
  {
    var d := NatDigits(n);
    if n >= 10 {
      NatDigitsRoundTrip(n / 10);
      var q, r := n / 10, n % 10;
      assert n == q * 10 + r;
      assert d == NatDigits(q) + [DigitChar(r)];
      assert d[..|d| - 1] == NatDigits(q);
      assert DigitValue(d[|d| - 1]) == r;
    } else {
      assert d[..0] == [];
    }
  }

  /** `int(str(i)) == i`: the text of an int determines it, so distinct ints
      never share a text. */
  lemma {:induction false} IntTextRoundTrip(i: int)
    ensures var s := IntText(i);
      (s[0] == '-' <==> i < 0) && ParseInt(s) == i
  {
    var s := IntText(i);
    if i < 0 {
      var d := NatDigits(-i);
      assert s == "-" + d;
      assert s[1..] == d;
      assert s[0] == '-';
      NatDigitsRoundTrip(-i);
      assert ParseInt(s) == -(ParseNat(d) as int);
    } else {
      var d := NatDigits(i);
      assert s == d;
      assert '0' <= s[0] <= '9';
      NatDigitsRoundTrip(i);
      assert ParseInt(s) == ParseNat(d);
    }
  }

  lemma IntTextInjective(i: int, j: int)
    requires IntText(i) == IntText(j)
    ensures i == j
  {
    IntTextRoundTrip(i);
    IntTextRoundTrip(j);
  }

  /** `sep.join(parts)`. */
  function Join(sep: string, parts: seq<string>): (s: string)
    ensures parts == [] ==> s == ""
    ensures |parts| == 1 ==> s == parts[0]
  {
    if parts == [] then ""
    else if |parts| == 1 then parts[0]
    else parts[0] + sep + Join(sep, parts[1..])
  }

  /** How many times `c` occurs in `s`. */
  function Count(c: char, s: string): (n: nat)
    ensures n <= |s|
    ensures n == 0 <==> c !in s
  {
    if s == [] then 0 else (if s[0] == c then 1 else 0) + Count(c, s[1..])
  }

  lemma {:induction false} CountAppend(c: char, a: string, b: string)
    ensures Count(c, a + b) == Count(c, a) + Count(c, b)
    decreases |a|
  {
    if a == [] {
      assert a + b == b;
    } else {
      assert (a + b)[1..] == a[1..] + b;
      CountAppend(c, a[1..], b);
    }
  }

  /** Joining parts that do not contain `c` with a separator that holds it
      once leaves exactly one `c` between neighbouring parts. */
  lemma {:induction false} CountJoin(c: char, sep: string, parts: seq<string>)
    requires Count(c, sep) == 1
    requires forall i | 0 <= i < |parts| :: c !in parts[i]
    ensures parts != [] ==> Count(c, Join(sep, parts)) == |parts| - 1
    ensures parts == [] ==> c !in Join(sep, parts)
    decreases |parts|
  {
    if |parts| > 1 {
      CountJoin(c, sep, parts[1..]);
      CountAppend(c, parts[0], sep);
      CountAppend(c, parts[0] + sep, Join(sep, parts[1..]));
    }
  }

  /** Every character of a join comes from a part or from the separator. */
  lemma {:induction false} JoinChars(c: char, sep: string, parts: seq<string>)
    requires c !in sep
    requires forall i | 0 <= i < |parts| :: c !in parts[i]
    ensures c !in Join(sep, parts)
    decreases |parts|
  {
    if |parts| > 1 {
      JoinChars(c, sep, parts[1..]);
      CountAppend(c, parts[0], sep);
      CountAppend(c, parts[0] + sep, Join(sep, parts[1..]));
    }
  }
}
