/**
 * Base-10 rendering and parsing of 64-bit integers, as Go's `strconv.FormatInt(n, 10)`
 * (and `strconv.Itoa`) and `strconv.ParseInt(s, 10, 64)` do them. `anyToString` renders
 * integers with the first and the `number`/`numbers` codecs parse strings with the second.
 */
module Decimal {
  import opened Wrappers
  import opened Values

  predicate IsDigit(c: char) {
    '0' <= c <= '9'
  }

  predicate AllDigits(s: string) {
    forall k :: 0 <= k < |s| ==> IsDigit(s[k])
  }

  function DigitChar(d: nat): (c: char)
    requires d < 10
    ensures IsDigit(c)
  {
    ('0' as int + d) as char
  }

  /** The decimal digits of `n`, most significant first. */
  function Digits(n: nat): (r: string)
    ensures r != [] && AllDigits(r)
    ensures r[0] == '0' <==> n == 0
  {
    if n < 10 then [DigitChar(n)] else Digits(n / 10) + [DigitChar(n % 10)]
  }

  /** The number a string of decimal digits denotes (leading zeros allowed). */
  function DigitsValue(s: string): nat
    requires AllDigits(s)
  {
    if s == [] then 0 else DigitsValue(s[..|s| - 1]) * 10 + (s[|s| - 1] as int - '0' as int)
  }

  /** The text `strconv.FormatInt(n, 10)` produces: an optional '-' and the digits of |n|. */
  function FormatDecimal(n: int64): (r: string)
    ensures Canonical(r)
    ensures r[0] == '-' <==> n < 0
  {
    var m: int := n;
    if m < 0 then "-" + Digits(-m) else Digits(m)
  }

  /**
   * The strings FormatDecimal produces: an optional '-', then digits with no leading
   * zero, and never "-0".
   */
  predicate Canonical(s: string) {
    var body := if s != [] && s[0] == '-' then s[1..] else s;
    && body != []
    && AllDigits(body)
    && (body[0] != '0' || body == "0")
    && s != "-0"
  }

  /** `s` without one leading '+' or '-'. */
  function Unsigned(s: string): string {
    if s != [] && (s[0] == '+' || s[0] == '-') then s[1..] else s
  }

  function Pow10(k: nat): nat {
    if k == 0 then 1 else 10 * Pow10(k - 1)
  }

  /**
   * `strconv.ParseInt(s, 10, 64)`: an optional '+' or '-', then one or more decimal
   * digits (no underscores), and a value within int64. None stands for both its syntax
   * error and its range error; the codecs treat them alike. The result is negative only
   * after a '-', and its magnitude is the number the digits denote.
   */
  function ParseDecimal(s: string): (r: Option<int64>)
    ensures r.Some? ==> Unsigned(s) != [] && AllDigits(Unsigned(s))
    ensures (Unsigned(s) != [] && AllDigits(Unsigned(s)) &&
             DigitsValue(Unsigned(s)) <= (if s[0] == '-' then MaxInt64 + 1 else MaxInt64)) ==> r.Some?
    ensures r.Some? && r.value < 0 ==> s[0] == '-'
    ensures r.Some? && s[0] == '-' ==> r.value <= 0
    ensures r.Some? ==> (if r.value < 0 then 0 - r.value as int else r.value as int) == DigitsValue(Unsigned(s))
  {
    if s == [] then None
    else
      var neg := s[0] == '-';
      var body := Unsigned(s);
      if body == [] || !AllDigits(body) then None
      else
        var m: int := DigitsValue(body);
        var n: int := if neg then -m else m;
        if MinInt64 <= n <= MaxInt64 then Some(n) else None
  }

  /** A string of k digits denotes less than 10^k, so 18 digits always fit in int64. */
  lemma {:induction false} DigitsValueBound(s: string)
    requires AllDigits(s)
    ensures DigitsValue(s) < Pow10(|s|)
    ensures |s| <= 18 ==> DigitsValue(s) <= MaxInt64
  {
    if s != [] {
      DigitsValueBound(s[..|s| - 1]);
    }
    Pow10Monotone(|s|, 18);
    assert Pow10(6) == 1_000_000 && Pow10(12) == 1_000_000_000_000;
    assert Pow10(18) == 1_000_000_000_000_000_000;
  }

  lemma {:induction false} Pow10Monotone(j: nat, k: nat)
    ensures j <= k ==> Pow10(j) <= Pow10(k)
  {
    if j < k {
      Pow10Monotone(j, k - 1);
    }
  }

  lemma {:induction false} DigitsValueOfDigits(n: nat)
    ensures DigitsValue(Digits(n)) == n
  {
    if n >= 10 {
      var d := Digits(n);
      assert d[..|d| - 1] == Digits(n / 10);
      DigitsValueOfDigits(n / 10);
    }
  }

  lemma {:induction false} PositiveDigitsValue(s: string)
    requires s != [] && AllDigits(s) && s[0] != '0'
    ensures DigitsValue(s) >= 1
  {
    if |s| > 1 {
      var p := s[..|s| - 1];
      assert p[0] == s[0];
      PositiveDigitsValue(p);
    }
  }

  lemma {:induction false} DigitsOfDigitsValue(s: string)
    requires s != [] && AllDigits(s) && (s[0] != '0' || s == "0")
    ensures Digits(DigitsValue(s)) == s
  {
    if |s| > 1 {
      var p := s[..|s| - 1];
      assert p[0] == s[0];
      PositiveDigitsValue(p);
      DigitsOfDigitsValue(p);
      assert s == p + [s[|s| - 1]];
    }
  }

  /** Rendering then parsing gives the number back. */
  lemma FormatParseRoundTrip(n: int64)
    ensures ParseDecimal(FormatDecimal(n)) == Some(n)
  {
    var m: int := n;
    var r := FormatDecimal(n);
    if m < 0 {
      assert r[1..] == Digits(-m);
      DigitsValueOfDigits(-m);
    } else {
      assert r == Digits(m);
      DigitsValueOfDigits(m);
    }
  }

  /**
   * Parsing a canonical string and rendering the number gives the string back: on
   * canonical strings FormatDecimal and ParseDecimal are inverse bijections.
   */
  lemma ParseFormatRoundTrip(s: string)
    requires Canonical(s) && ParseDecimal(s).Some?
    ensures FormatDecimal(ParseDecimal(s).value) == s
  {
    if s[0] == '-' {
      var body := s[1..];
      assert s == "-" + body;
      PositiveDigitsValue(body);
      DigitsOfDigitsValue(body);
      assert ParseDecimal(s).value == 0 - DigitsValue(body) as int;
    } else {
      DigitsOfDigitsValue(s);
      assert ParseDecimal(s).value == DigitsValue(s);
    }
  }

  /** Edge cases of `strconv.ParseInt(s, 10, 64)`: signs, leading zeros, separators. */
  lemma ParseDecimalEdgeCases()
    ensures ParseDecimal("") == None && ParseDecimal("+") == None && ParseDecimal("-") == None
    ensures ParseDecimal("1_000") == None && ParseDecimal(" 1") == None
    ensures ParseDecimal("+7") == Some(7) && ParseDecimal("007") == Some(7) && ParseDecimal("-0") == Some(0)
  {
    assert !IsDigit("1_000"[1]);
    assert !IsDigit(" 1"[0]);
    assert "+7"[1..] == "7" && DigitsValue("7") == 7;
    assert "-0"[1..] == "0" && DigitsValue("0") == 0;
    assert "007"[..2] == "00" && "00"[..1] == "0";
  }
}
