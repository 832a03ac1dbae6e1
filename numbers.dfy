/**
 * Python's `int(text)` and `float(text)` on the decimal text the program
 * parses, and the text `str()` gives back for a float.  Values are exact: a
 * float is modelled by the rational number its decimal text denotes.
 */
module Numbers {
  import opened Wrappers
  import opened Text

  predicate IsDigit(c: char) { '0' <= c <= '9' }

  predicate AllDigits(s: string) {
    forall i :: 0 <= i < |s| ==> IsDigit(s[i])
  }

  function DigitValue(c: char): nat
    requires IsDigit(c)
  {
    c as int - '0' as int
  }

  function DigitChar(d: nat): (c: char)
    requires d < 10
    ensures IsDigit(c) && DigitValue(c) == d
  {
    ('0' as int + d) as char
  }

  /** The number a string of decimal digits denotes (0 for the empty string). */
  function DigitsValue(s: string): nat
    requires AllDigits(s)
  {
    if s == [] then 0 else DigitsValue(s[..|s| - 1]) * 10 + DigitValue(s[|s| - 1])
  }

  function Pow10(n: nat): (p: nat)
    ensures p >= 1
  {
    if n == 0 then 1 else 10 * Pow10(n - 1)
  }

  /** Python's `str(n)` for a natural number: its digits without leading zeros. */
  function NatText(n: nat): (s: string)
    ensures |s| >= 1 && AllDigits(s) && DigitsValue(s) == n
    ensures n > 0 ==> s[0] != '0'
  {
    if n < 10 then [DigitChar(n)]
    else
      var s := NatText(n / 10) + [DigitChar(n % 10)];
      assert s[..|s| - 1] == NatText(n / 10);
      s
  }

  /** Python's `str(i)` for an integer. */
  function IntText(i: int): string {
    if i < 0 then "-" + NatText(-i) else NatText(i)
  }

  /**
   * Python's `int(s)`: white space around, an optional sign, then one or more
   * ASCII digits; `None` where Python raises `ValueError`.
   */
  function ParseInt(s: string): (r: Option<int>)
    ensures r.Some? ==> forall k :: 0 <= k < |s| ==> IsDigit(s[k]) || IsSpace(s[k]) || s[k] == '-' || s[k] == '+'
  {
    var t := Strip(s);
    if |t| > 0 && (t[0] == '-' || t[0] == '+') then
      if |t| > 1 && AllDigits(t[1..]) then
        SignedDigitsChars(s);
        var n: int := DigitsValue(t[1..]);
        Some(if t[0] == '-' then -n else n)
      else None
    else if |t| > 0 && AllDigits(t) then
      assert IsDigit(t[0]) && AllDigits(t[1..]);
      SignedDigitsChars(s);
      Some(DigitsValue(t))
    else None
  }

  /** Text whose stripped form is a sign or a digit followed by digits holds nothing else but white space. */
  lemma SignedDigitsChars(s: string)
    requires |Strip(s)| > 0 && (IsDigit(Strip(s)[0]) || Strip(s)[0] == '-' || Strip(s)[0] == '+')
    requires AllDigits(Strip(s)[1..])
    ensures forall k :: 0 <= k < |s| ==> IsDigit(s[k]) || IsSpace(s[k]) || s[k] == '-' || s[k] == '+'
  {
    var t := Strip(s);
    StripKeeps(s);
    forall k | 0 <= k < |s| && !IsSpace(s[k])
      ensures IsDigit(s[k]) || s[k] == '-' || s[k] == '+'
    {
      var j :| 0 <= j < |t| && t[j] == s[k];
      if j > 0 {
        assert t[1..][j - 1] == t[j];
      }
    }
  }

  /** `int(str(i)) == i`. */
  lemma ParseIntText(i: int)
    ensures ParseInt(IntText(i)) == Some(i)
  {
    var t := IntText(i);
    assert !IsSpace(t[0]) && !IsSpace(t[|t| - 1]);
    StripStripped(t);
    if i < 0 {
      assert t[1..] == NatText(-i);
    }
  }

  /** Position of the first `c` in `s`, or `|s|` when there is none. */
  function IndexOf(s: string, c: char): (k: nat)
    ensures k <= |s| && (k < |s| ==> s[k] == c) && c !in s[..k]
  {
    if s == [] then 0
    else if s[0] == c then 0
    else
      var k := 1 + IndexOf(s[1..], c);
      assert s[..k] == [s[0]] + s[1..][..k - 1];
      k
  }

  /** `IndexOf` finds the first occurrence. */
  lemma IndexOfAt(s: string, c: char, k: nat)
    requires k < |s| && s[k] == c && c !in s[..k]
    ensures IndexOf(s, c) == k
  {
    var j := IndexOf(s, c);
    forall i | 0 <= i < k
      ensures s[i] != c
    {
      assert s[..k][i] == s[i];
    }
    forall i | 0 <= i < j
      ensures s[i] != c
    {
      assert s[..j][i] == s[i];
    }
  }

  /** `s` with its trailing '0' digits removed. */
  function DropTrailingZeros(s: string): (r: string)
    ensures |r| <= |s| && r == s[..|r|]
    ensures r == [] || r[|r| - 1] != '0'
    ensures forall i :: |r| <= i < |s| ==> s[i] == '0'
  {
    if s != [] && s[|s| - 1] == '0' then DropTrailingZeros(s[..|s| - 1]) else s
  }

  /** A float as the program holds it: its value, and the text `str()` gives for it. */
  datatype Float = Float(value: real, text: string)

  /** The decimal text of a float: optional sign, whole digits, '.', fraction digits. */
  datatype Decimal = Decimal(negative: bool, whole: string, fraction: string)

  predicate WellFormed(d: Decimal) {
    AllDigits(d.whole) && AllDigits(d.fraction) && |d.whole| + |d.fraction| > 0
  }

  /** The number the digits after a decimal point denote. */
  function FractionValue(f: string): real
    requires AllDigits(f)
  {
    DigitsValue(f) as real / Pow10(|f|) as real
  }

  /** The number `d` denotes. */
  function Value(d: Decimal): real
    requires WellFormed(d)
  {
    var magnitude := DigitsValue(d.whole) as real + FractionValue(d.fraction);
    if d.negative then -magnitude else magnitude
  }

  function Sign(negative: bool): string {
    if negative then "-" else ""
  }

  /** The fraction digits `str()` prints: trailing zeros dropped, but at least one digit. */
  function FractionText(f: string): (r: string)
    requires AllDigits(f)
    ensures AllDigits(r) && |r| >= 1
  {
    var g := DropTrailingZeros(f);
    if g == [] then "0" else g
  }

  /**
   * Python's `str()` of the float `d` denotes, in positional notation: no
   * leading zeros, no trailing zeros, and at least one digit on each side of
   * the point ("1234.0", "0.5", "-0.0").
   */
  function FloatText(d: Decimal): (r: string)
    requires WellFormed(d)
    ensures Canonical(d) ==> r == Sign(d.negative) + d.whole + "." + d.fraction
  {
    var f := FractionText(d.fraction);
    assert Canonical(d) ==> f == d.fraction by {
      if Canonical(d) && d.fraction != "0" {
        assert DropTrailingZeros(d.fraction) == d.fraction;
      }
    }
    Sign(d.negative) + NatText(DigitsValue(d.whole)) + "." + f
  }

  /**
   * Decimal text as `str()` prints it: the whole part without leading zeros,
   * and a non-empty fraction without trailing zeros, or the fraction "0".
   */
  predicate Canonical(d: Decimal)
    requires WellFormed(d)
  {
    && d.whole == NatText(DigitsValue(d.whole))
    && |d.fraction| >= 1
    && (d.fraction == "0" || d.fraction[|d.fraction| - 1] != '0')
  }

  /** Splits text (already stripped) into sign, whole digits and fraction digits, if it is decimal text. */
  function Lex(t: string): (r: Option<Decimal>)
    ensures r.Some? ==> WellFormed(r.value)
  {
    var negative := |t| > 0 && t[0] == '-';
    LexBody(negative, if |t| > 0 && (t[0] == '-' || t[0] == '+') then t[1..] else t)
  }

  /** The unsigned rest of the text, split at its first point into whole and fraction digits. */
  function LexBody(negative: bool, body: string): (r: Option<Decimal>)
    ensures r.Some? ==> WellFormed(r.value)
  {
    var k := IndexOf(body, '.');
    var d := Decimal(negative, body[..k], if k < |body| then body[k + 1..] else "");
    if WellFormed(d) then Some(d) else None
  }

  /**
   * Python's `float(s)` on plain decimal text: white space around, an optional
   * sign, digits with at most one '.', and at least one digit; `None` where
   * Python raises `ValueError`.
   */
  function ParseFloat(s: string): (r: Option<Float>)
    ensures r.Some? ==> forall k :: 0 <= k < |s| ==>
      IsDigit(s[k]) || IsSpace(s[k]) || s[k] == '.' || s[k] == '-' || s[k] == '+'
  {
    StripKeeps(s);
    match Lex(Strip(s))
    case Some(d) =>
      LexChars(Strip(s));
      Some(Float(Value(d), FloatText(d)))
    case None => None
  }

  /** Text that lexes as a decimal holds only digits, signs and the point. */
  lemma LexChars(t: string)
    requires Lex(t).Some?
    ensures forall i :: 0 <= i < |t| ==> IsDigit(t[i]) || t[i] == '.' || t[i] == '-' || t[i] == '+'
  {
    var off := if |t| > 0 && (t[0] == '-' || t[0] == '+') then 1 else 0;
    var body := t[off..];
    var k := IndexOf(body, '.');
    var d := Lex(t).value;
    forall i | off <= i < |t|
      ensures IsDigit(t[i]) || t[i] == '.'
    {
      var j := i - off;
      assert body[j] == t[i];
      if j < k {
        assert d.whole[j] == body[j];
      } else if j > k {
        assert d.fraction[j - k - 1] == body[j];
      }
    }
  }

  /** Text with a non-zero first digit denotes a positive number. */
  lemma {:induction false} LeadingDigitPositive(s: string)
    requires AllDigits(s) && |s| >= 1 && s[0] != '0'
    ensures DigitsValue(s) >= 1
  {
    if |s| > 1 {
      LeadingDigitPositive(s[..|s| - 1]);
    }
  }

  /** Digits without leading zeros are exactly what `str()` prints for their value. */
  lemma {:induction false} NatTextOfCanonical(w: string)
    requires AllDigits(w) && |w| >= 1 && (|w| > 1 ==> w[0] != '0')
    ensures NatText(DigitsValue(w)) == w
  {
    var n, c := DigitsValue(w), w[|w| - 1];
    assert DigitChar(DigitValue(c)) == c;
    if |w| > 1 {
      var w' := w[..|w| - 1];
      LeadingDigitPositive(w');
      assert n == DigitsValue(w') * 10 + DigitValue(c);
      assert n / 10 == DigitsValue(w') && n % 10 == DigitValue(c);
      NatTextOfCanonical(w');
      assert w == w' + [c];
    } else {
      assert w == [c];
    }
  }

  /** Trailing zeros scale the value of a digit string by a power of ten. */
  lemma {:induction false} TrailingZerosValue(s: string, m: nat)
    requires AllDigits(s) && m <= |s|
    requires forall i :: m <= i < |s| ==> s[i] == '0'
    ensures DigitsValue(s) == DigitsValue(s[..m]) * Pow10(|s| - m)
    decreases |s|
  {
    if |s| > m {
      var s' := s[..|s| - 1];
      assert s'[..m] == s[..m];
      TrailingZerosValue(s', m);
      var a, p := DigitsValue(s[..m]), Pow10(|s'| - m);
      assert DigitsValue(s) == DigitsValue(s') * 10;
      assert Pow10(|s| - m) == 10 * p;
      assert a * p * 10 == a * (10 * p);
    } else {
      assert s[..m] == s;
    }
  }

  /** Positional text splits at its point into whole and fraction digits. */
  lemma SplitAtPoint(w: string, f: string)
    requires AllDigits(w)
    ensures IndexOf(w + "." + f, '.') == |w|
    ensures (w + "." + f)[..|w|] == w && (w + "." + f)[|w| + 1..] == f
  {
    var t := w + "." + f;
    assert t[..|w|] == w;
    assert '.' !in w;
    IndexOfAt(t, '.', |w|);
    assert t[|w| + 1..] == f;
  }

  /** Signed positional text lexes into its sign, whole digits and fraction digits. */
  lemma LexSigned(negative: bool, w: string, f: string)
    requires AllDigits(w) && AllDigits(f) && |w| >= 1
    ensures Lex(Sign(negative) + w + "." + f) == Some(Decimal(negative, w, f))
  {
    var body := w + "." + f;
    assert Sign(negative) + w + "." + f == Sign(negative) + body;
    LexSign(negative, body);
    SplitAtPoint(w, f);
  }

  /** Lexing strips the sign, when the text after it starts with a digit. */
  lemma LexSign(negative: bool, body: string)
    requires |body| > 0 && IsDigit(body[0])
    ensures Lex(Sign(negative) + body) == LexBody(negative, body)
  {
    var t := Sign(negative) + body;
    if negative {
      assert t[0] == '-' && t[1..] == body;
    } else {
      assert t == body;
    }
  }

  /** Signed positional text has no white space at either end. */
  lemma StripSigned(negative: bool, w: string, f: string)
    requires AllDigits(w) && AllDigits(f) && |w| >= 1 && |f| >= 1
    ensures Strip(Sign(negative) + w + "." + f) == Sign(negative) + w + "." + f
  {
    var t := Sign(negative) + w + "." + f;
    assert t[0] == (if negative then '-' else w[0]);
    assert t[|t| - 1] == f[|f| - 1];
    assert !IsSpace(t[0]) && !IsSpace(t[|t| - 1]);
    StripStripped(t);
  }

  /** `float()` of stripped text that lexes as `d`. */
  lemma ParseLexed(t: string, d: Decimal)
    requires WellFormed(d) && Strip(t) == t && Lex(t) == Some(d)
    ensures ParseFloat(t) == Some(Float(Value(d), FloatText(d)))
  {
  }

  lemma {:induction false} Pow10Add(a: nat, b: nat)
    ensures Pow10(a + b) == Pow10(a) * Pow10(b)
  {
    if a > 0 {
      Pow10Add(a - 1, b);
    }
  }

  /** Scaling numerator and denominator alike leaves a fraction unchanged. */
  lemma CancelScale(x: nat, q: nat, p: nat)
    requires q >= 1 && p >= 1
    ensures (x * p) as real / ((q * p) as real) == x as real / q as real
  {
    assert (x * p) as real == x as real * p as real;
    assert (q * p) as real == q as real * p as real;
  }

  /** The fraction digits `str()` prints denote the same number as the digits parsed. */
  lemma FractionTextValue(f: string)
    requires AllDigits(f)
    ensures FractionValue(FractionText(f)) == FractionValue(f)
  {
    var g := DropTrailingZeros(f);
    var m := |g|;
    TrailingZerosValue(f, m);
    Pow10Add(m, |f| - m);
    if g == [] {
      assert DigitsValue(f) == 0;
      assert DigitsValue("0") == 0;
    } else {
      CancelScale(DigitsValue(g), Pow10(m), Pow10(|f| - m));
    }
  }

  /** `str()` prints fraction digits it has already printed as they are. */
  lemma FractionTextCanonical(f: string)
    requires AllDigits(f)
    ensures FractionText(FractionText(f)) == FractionText(f)
  {
  }

  /**
   * `str()` of a float parses back to that float: `float(str(x)) == x`, and
   * printing it again gives the same text.  This is what lets the first
   * costing at project.py:244 read a cost through its text at all: a float's
   * printed text, once the cost rule is out of the way, means that float.
   */
  lemma FloatTextRoundTrip(d: Decimal)
    requires WellFormed(d)
    ensures ParseFloat(FloatText(d)) == Some(Float(Value(d), FloatText(d)))
  {
    var d' := Printed(d);
    PrintedSame(d);
    var t := FloatText(d);
    assert Strip(t) == t by {
      StripSigned(d.negative, d'.whole, d'.fraction);
    }
    assert Lex(t) == Some(d') by {
      LexSigned(d.negative, d'.whole, d'.fraction);
    }
    ParseLexed(t, d');
  }

  /** The decimal `str()` prints for `d`: its sign, the whole part without leading zeros, the fraction `FractionText` keeps. */
  function Printed(d: Decimal): Decimal
    requires WellFormed(d)
  {
    Decimal(d.negative, NatText(DigitsValue(d.whole)), FractionText(d.fraction))
  }

  /** The printed decimal is the text `str()` gives, denotes the same number and prints as itself. */
  lemma PrintedSame(d: Decimal)
    requires WellFormed(d)
    ensures var p := Printed(d);
      && AllDigits(p.whole) && AllDigits(p.fraction) && |p.whole| >= 1 && |p.fraction| >= 1
      && FloatText(d) == Sign(d.negative) + p.whole + "." + p.fraction
      && Value(p) == Value(d)
      && FloatText(p) == FloatText(d)
  {
    assert Value(Printed(d)) == Value(d) by {
      FractionTextValue(d.fraction);
    }
    assert FloatText(Printed(d)) == FloatText(d) by {
      FractionTextCanonical(d.fraction);
    }
  }

  /** `float()` of unsigned positional text with digits on both sides of the point. */
  lemma ParsePositional(w: string, f: string)
    requires AllDigits(w) && AllDigits(f) && |w| >= 1 && |f| >= 1
    ensures ParseFloat(w + "." + f) == Some(Float(Value(Decimal(false, w, f)), FloatText(Decimal(false, w, f))))
    ensures Value(Decimal(false, w, f)) == DigitsValue(w) as real + FractionValue(f)
  {
    LexPositional(w, f);
    ParseLexed(w + "." + f, Decimal(false, w, f));
  }

  /** Unsigned positional text is already stripped and lexes into its two digit parts. */
  lemma LexPositional(w: string, f: string)
    requires AllDigits(w) && AllDigits(f) && |w| >= 1 && |f| >= 1
    ensures Strip(w + "." + f) == w + "." + f
    ensures Lex(w + "." + f) == Some(Decimal(false, w, f))
  {
    assert Sign(false) + w + "." + f == w + "." + f;
    StripSigned(false, w, f);
    LexSigned(false, w, f);
  }

  /** `str()` prints canonical positional text as it is. */
  lemma FloatTextCanonical(w: string, f: string)
    requires AllDigits(w) && |w| >= 1 && (|w| > 1 ==> w[0] != '0')
    requires AllDigits(f) && |f| >= 1 && f[|f| - 1] != '0'
    ensures FloatText(Decimal(false, w, f)) == w + "." + f
  {
    assert DropTrailingZeros(f) == f;
    NatTextOfCanonical(w);
    assert Sign(false) + w + "." + f == w + "." + f;
  }

  /** `float()` of canonical positional text is that number, and `str()` of it gives the text back. */
  lemma ParseCanonical(w: string, f: string)
    requires AllDigits(w) && |w| >= 1 && (|w| > 1 ==> w[0] != '0')
    requires AllDigits(f) && |f| >= 1 && f[|f| - 1] != '0'
    ensures ParseFloat(w + "." + f) == Some(Float(Value(Decimal(false, w, f)), w + "." + f))
  {
    ParsePositional(w, f);
    FloatTextCanonical(w, f);
  }

  /** Plain digits lex as a whole number with an empty fraction. */
  lemma LexWhole(w: string)
    requires AllDigits(w) && |w| >= 1
    ensures Lex(w) == Some(Decimal(false, w, ""))
  {
    assert '.' !in w by {
      assert forall i :: 0 <= i < |w| ==> IsDigit(w[i]);
    }
    assert IndexOf(w, '.') == |w|;
    assert w[..|w|] == w;
  }

  /** A whole number with an empty fraction denotes its digits' value. */
  lemma WholeValue(w: string)
    requires AllDigits(w) && |w| >= 1
    ensures Value(Decimal(false, w, "")) == DigitsValue(w) as real
  {
    assert DigitsValue("") == 0 && Pow10(0) == 1;
    assert FractionValue("") == 0.0;
  }

  /** `str()` of a whole number ends in ".0". */
  lemma WholeText(w: string)
    requires AllDigits(w) && |w| >= 1
    ensures FloatText(Decimal(false, w, "")) == NatText(DigitsValue(w)) + ".0"
  {
    var n := NatText(DigitsValue(w));
    var z := FractionText("");
    assert z == "0";
    assert FloatText(Decimal(false, w, "")) == Sign(false) + n + "." + z;
    assert Sign(false) + n == n;
    assert n + "." + z == n + ".0";
  }


  /** `float()` of plain digits is the whole number they denote; `str()` prints it with ".0". */
  lemma ParseWhole(w: string)
    requires AllDigits(w) && |w| >= 1
    ensures ParseFloat(w) == Some(Float(DigitsValue(w) as real, NatText(DigitsValue(w)) + ".0"))
  {
    assert !IsSpace(w[0]) && !IsSpace(w[|w| - 1]);
    StripStripped(w);
    LexWhole(w);
    WholeValue(w);
    WholeText(w);
    ParseLexed(w, Decimal(false, w, ""));
  }
}
