/** JavaScript's global `parseFloat` and the truthiness of the number it returns.
    Numbers are exact reals: the rounding to IEEE doubles is not modelled. */
module JsNumber {
  import opened Options
  import opened JsString

  /** The result of `parseFloat`: not-a-number, a finite value or an infinity. */
  datatype Number = NaN | Finite(value: real) | Infinity(negative: bool)

  /** `!!n`: NaN and zero are falsy, every other number is truthy. */
  predicate TruthyNumber(n: Number) {
    n.Infinity? || (n.Finite? && n.value != 0.0)
  }

  /** `n > lo && n < hi`: every comparison with NaN is false, and an infinity
      is never strictly between two finite bounds. */
  predicate Between(n: Number, lo: real, hi: real) {
    n.Finite? && lo < n.value < hi
  }

  predicate IsDigit(c: char) {
    '0' <= c <= '9'
  }

  predicate AllDigits(s: string) {
    forall k :: 0 <= k < |s| ==> IsDigit(s[k])
  }

  /** Length of the run of decimal digits that `s` starts with. */
  function DigitRun(s: string): (n: nat)
    ensures n <= |s| && AllDigits(s[..n])
    ensures n < |s| ==> !IsDigit(s[n])
  {
    if s != [] && IsDigit(s[0]) then 1 + DigitRun(s[1..]) else 0
  }

  /** The value of a string of decimal digits. */
  function DigitsValue(d: string): nat
    requires AllDigits(d)
  {
    if d == [] then 0 else DigitsValue(d[..|d| - 1]) * 10 + ((d[|d| - 1] as int) - ('0' as int))
  }

  function Pow10(e: nat): (r: nat)
    ensures r >= 1
  {
    if e == 0 then 1 else 10 * Pow10(e - 1)
  }

  /** The exponent of an ExponentPart (`e` or `E`, an optional sign, digits) that
      `s` starts with, or 0 when `s` does not start with a complete one. */
  function ExponentOf(s: string): int {
    if |s| >= 2 && (s[0] == 'e' || s[0] == 'E') then
      if IsDigit(s[1]) then DigitsValue(s[1..][..DigitRun(s[1..])])
      else if |s| >= 3 && (s[1] == '+' || s[1] == '-') && IsDigit(s[2]) then
        (if s[1] == '-' then -1 else 1) * DigitsValue(s[2..][..DigitRun(s[2..])])
      else 0
    else 0
  }

  /** `s` with an optional leading '+' or '-' removed. */
  function Unsigned(s: string): string {
    if s != [] && (s[0] == '+' || s[0] == '-') then s[1..] else s
  }

  /** `u` starts with "Infinity". */
  predicate StartsInfinity(u: string) {
    |u| >= 8 && u[..8] == "Infinity"
  }

  /** `u` starts the way a decimal literal must: a digit, '.' and a digit, or "Infinity". */
  predicate StartsNumber(u: string) {
    (u != [] && IsDigit(u[0])) || (|u| >= 2 && u[0] == '.' && IsDigit(u[1])) || StartsInfinity(u)
  }

  /** The parts of the longest finite decimal literal at the start of a string. */
  datatype Literal = Literal(integer: string, fraction: string, exponent: int)

  /** The decimal literal (digits, an optional '.' and digits, an optional exponent)
      that `u` starts with, if any. */
  function ScanLiteral(u: string): (r: Option<Literal>)
    ensures r.None? <==> !((u != [] && IsDigit(u[0])) || (|u| >= 2 && u[0] == '.' && IsDigit(u[1])))
    ensures r.Some? ==> AllDigits(r.value.integer) && AllDigits(r.value.fraction)
  {
    var i := DigitRun(u);
    var hasDot := i < |u| && u[i] == '.';
    var f := if hasDot then DigitRun(u[i + 1..]) else 0;
    if i == 0 && f == 0 then None
    else
      var fraction := if hasDot then u[i + 1..][..f] else "";
      Some(Literal(u[..i], fraction, ExponentOf(if hasDot then u[i + 1 + f..] else u[i..])))
  }

  /** The exact value of a decimal literal. */
  function LiteralValue(l: Literal): real
    requires AllDigits(l.integer) && AllDigits(l.fraction)
  {
    var mantissa := DigitsValue(l.integer) as real + DigitsValue(l.fraction) as real / Pow10(|l.fraction|) as real;
    if l.exponent >= 0 then mantissa * Pow10(l.exponent) as real else mantissa / Pow10(-l.exponent) as real
  }

  /** `parseFloat(s)`: skip leading whitespace, then read the longest prefix that is
      a signed decimal literal or a signed "Infinity"; NaN when there is none. */
  function ParseFloat(s: string): (r: Number)
    ensures r.NaN? <==> !StartsNumber(Unsigned(TrimStart(s)))
    ensures r.Infinity? <==> StartsInfinity(Unsigned(TrimStart(s)))
  {
    var t := TrimStart(s);
    var negative := t != [] && t[0] == '-';
    var u := Unsigned(t);
    if StartsInfinity(u) then Infinity(negative)
    else match ScanLiteral(u)
      case None => NaN
      case Some(l) => Finite(if negative then -LiteralValue(l) else LiteralValue(l))
  }

  /** A string that starts with a digit parses to a finite number, whatever follows
      it: "36 rue X" is numeric. */
  lemma NumericPrefix(s: string)
    requires s != [] && IsDigit(s[0])
    ensures ParseFloat(s).Finite?
  {
    assert TrimStart(s) == s;
  }

  lemma {:induction false} DigitRunAppend(a: string, x: string)
    requires AllDigits(a)
    ensures DigitRun(a + x) == |a| + DigitRun(x)
  {
    if a != [] {
      assert (a + x)[0] == a[0];
      assert (a + x)[1..] == a[1..] + x;
      DigitRunAppend(a[1..], x);
    } else {
      assert a + x == x;
    }
  }

  /** A tail that ends a decimal literal: nothing, or a character that cannot continue it. */
  predicate EndsLiteral(tail: string) {
    tail == [] || (!IsDigit(tail[0]) && tail[0] != '.' && tail[0] != 'e' && tail[0] != 'E')
  }

  /** Digits followed by a tail that does not start with a digit: the run is the digits. */
  lemma DigitRunSplit(a: string, tail: string)
    requires AllDigits(a) && (tail == [] || !IsDigit(tail[0]))
    ensures DigitRun(a + tail) == |a|
    ensures (a + tail)[..|a|] == a && (a + tail)[|a|..] == tail
  {
    DigitRunAppend(a, tail);
  }

  /** digits '.' digits, then anything that cannot continue the literal. */
  lemma ScanDecimal(a: string, b: string, tail: string)
    requires a != [] && AllDigits(a) && AllDigits(b) && EndsLiteral(tail)
    ensures ScanLiteral(a + "." + b + tail) == Some(Literal(a, b, 0))
  {
    var s := a + "." + b + tail;
    var u := b + tail;
    assert s == a + ("." + u);
    DigitRunSplit(a, "." + u);
    assert s[|a|] == '.' && s[|a| + 1..] == u;
    DigitRunSplit(b, tail);
    assert DigitRun(s[|a| + 1..]) == |b| && s[|a| + 1..][..|b|] == b;
    assert s[|a| + 1 + |b|..] == tail;
    assert ExponentOf(tail) == 0;
  }

  /** digits, then anything that cannot continue the literal. */
  lemma ScanInteger(a: string, tail: string)
    requires a != [] && AllDigits(a) && EndsLiteral(tail)
    ensures ScanLiteral(a + tail) == Some(Literal(a, "", 0))
  {
    var s := a + tail;
    DigitRunAppend(a, tail);
    assert s[..|a|] == a;
    assert s[|a|..] == tail;
  }

  /** A literal with no fraction and no exponent denotes its integer part. */
  lemma IntegerLiteral(a: string)
    requires AllDigits(a)
    ensures LiteralValue(Literal(a, "", 0)) == DigitsValue(a) as real
  {
    assert DigitsValue("") == 0 && Pow10(0) == 1;
  }

  /** A string that starts with none of whitespace, a sign, a digit, '.' or 'I'
      is not a number. */
  lemma NotANumber(s: string)
    requires s != [] && !IsWhitespace(s[0]) && !IsDigit(s[0])
    requires s[0] != '+' && s[0] != '-' && s[0] != '.' && s[0] != 'I'
    ensures ParseFloat(s).NaN?
  {
    assert TrimStart(s) == s;
    assert Unsigned(s) == s;
    if |s| >= 8 {
      assert s[..8][0] == s[0];
    }
  }

  /** A string that does not start with whitespace or a sign parses by its literal. */
  lemma ParsePlain(s: string)
    requires s != [] && IsDigit(s[0])
    ensures ScanLiteral(s).Some? && ParseFloat(s) == Finite(LiteralValue(ScanLiteral(s).value))
  {
    assert !IsWhitespace(s[0]);
    assert TrimStart(s) == s;
    assert Unsigned(s) == s;
    assert !StartsInfinity(s) by {
      if |s| >= 8 {
        assert s[..8][0] == s[0];
      }
    }
  }

  lemma DigitsNoComma(a: string)
    requires AllDigits(a)
    ensures ',' !in a
  {
    forall k | 0 <= k < |a| ensures a[k] != ',' {
      assert IsDigit(a[k]);
    }
  }

  /** A string of digits has no whitespace at either end. */
  lemma DigitsTrimmed(a: string)
    requires AllDigits(a)
    ensures IsTrimmed(a)
  {
    if a != [] {
      assert IsDigit(a[0]) && IsDigit(a[|a| - 1]);
    }
  }

  /** A string of digits is left alone by the comma correction and parses as the
      integer it denotes. */
  lemma IntegerNoComma(a: string)
    requires a != [] && AllDigits(a)
    ensures ParseFloat(ReplaceFirst(a, ",", ".")) == Finite(DigitsValue(a) as real)
  {
    DigitsNoComma(a);
    ReplaceFirstNoComma(a);
    ScanInteger(a, "");
    assert a + "" == a;
    ParsePlain(a);
    IntegerLiteral(a);
  }

  /** With the comma correction, "34,5" and "34.5" are the same number. */
  lemma CommaSameAsDot(a: string, b: string)
    requires a != [] && AllDigits(a) && AllDigits(b)
    ensures ParseFloat(ReplaceFirst(a + "," + b, ",", ".")) == ParseFloat(a + "." + b)
  {
    CommaDecimal(a, b);
    var s := a + "." + b;
    ScanDecimal(a, b, "");
    assert s + "" == s;
    assert s[0] == a[0];
    ParsePlain(s);
  }

  /** The comma correction: digits, a ',' and digits, once the first ',' becomes
      '.', parse as the decimal number they denote. */
  lemma CommaDecimal(a: string, b: string)
    requires a != [] && AllDigits(a) && AllDigits(b)
    ensures ParseFloat(ReplaceFirst(a + "," + b, ",", ".")) == Finite(LiteralValue(Literal(a, b, 0)))
  {
    DigitsNoComma(a);
    ReplaceFirstComma(a, b);
    var s := a + "." + b;
    ScanDecimal(a, b, "");
    assert s + "" == s;
    assert s[0] == a[0];
    ParsePlain(s);
  }
}
