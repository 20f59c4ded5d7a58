/** Python's number conversions as the importer uses them: `int(text)`, `int(float(text))`
    and `str(n)`, restricted to plain decimal notation. */
module Numbers {
  import opened Results
  import opened Text

  predicate IsDigit(c: char) { '0' <= c <= '9' }

  predicate AllDigits(s: string) {
    forall i | 0 <= i < |s| :: IsDigit(s[i])
  }

  function DigitValue(c: char): nat
    requires IsDigit(c)
  {
    c as int - '0' as int
  }

  function DigitChar(d: nat): (c: char)
    requires d < 10
    ensures IsDigit(c) && DigitValue(c) == d
  {
    ('0' as int + d) as char
  }

  /** The value of a string of decimal digits, most significant first. */
  function DigitsValue(ds: string): nat
    requires AllDigits(ds)
    decreases |ds|
  {
    if ds == [] then 0 else DigitsValue(ds[..|ds| - 1]) * 10 + DigitValue(ds[|ds| - 1])
  }

  function Pow10(n: nat): (p: nat)
    ensures p >= 1
  {
    if n == 0 then 1 else 10 * Pow10(n - 1)
  }

  function Abs(n: int): nat {
    if n < 0 then -n else n
  }

  /** Python `str(n)` for a non-negative `n`. */
  function NatToString(n: nat): (r: string)
    ensures r != [] && AllDigits(r)
    decreases n
  {
    if n < 10 then [DigitChar(n)] else NatToString(n / 10) + [DigitChar(n % 10)]
  }

  /** Python `str(n)`. */
  function IntToString(n: int): string {
    if n < 0 then "-" + NatToString(-n) else NatToString(n)
  }

  /** The optional sign in front of a number: whether it is `-`, and the text after it. */
  function SplitSign(t: string): (bool, string) {
    if t != [] && (t[0] == '-' || t[0] == '+') then (t[0] == '-', t[1..]) else (false, t)
  }

  /** Python `int(s)` for base 10: surrounding whitespace, an optional sign, then one or
      more decimal digits; anything else is a `ValueError`, modelled as `None`. */
  function ParseInt(s: string): Option<int> {
    var (negative, digits) := SplitSign(Strip(s));
    if digits != [] && AllDigits(digits) then
      var v: int := DigitsValue(digits);
      Some(if negative then -v else v)
    else None
  }

  /** A decimal literal `[sign] whole [. fraction]`. */
  datatype Decimal = Decimal(negative: bool, whole: string, fraction: string)

  predicate ValidDecimal(d: Decimal) {
    AllDigits(d.whole) && AllDigits(d.fraction) && |d.whole| + |d.fraction| >= 1
  }

  /** Python `float(s)` restricted to plain decimal notation: surrounding whitespace, an
      optional sign, digits with at most one `.`, and at least one digit. */
  function ParseDecimal(s: string): (r: Option<Decimal>)
    ensures r.Some? ==> ValidDecimal(r.value)
  {
    var (negative, body) := SplitSign(Strip(s));
    var dot := IndexOf(body, '.');
    var whole := body[..dot];
    var fraction := if dot < |body| then body[dot + 1..] else "";
    var d := Decimal(negative, whole, fraction);
    if ValidDecimal(d) then Some(d) else None
  }

  /** `int(x)` of a float: drop the fraction, keep the sign (truncation toward zero). */
  function Truncate(d: Decimal): int
    requires ValidDecimal(d)
  {
    var v: int := DigitsValue(d.whole);
    if d.negative then -v else v
  }

  /** Python `int(float(s))`; `None` stands for the `ValueError` of `float`. */
  function TruncFloat(s: string): Option<int> {
    match ParseDecimal(s)
    case None => None
    case Some(d) => Some(Truncate(d))
  }

  // ---------------------------------------------------------------------------
  // Lemmas

  /** Appending digits shifts the value left: the positional reading of a decimal. */
  lemma {:induction false} DigitsValueAppend(a: string, b: string)
    requires AllDigits(a) && AllDigits(b)
    ensures AllDigits(a + b)
    ensures DigitsValue(a + b) == DigitsValue(a) * Pow10(|b|) + DigitsValue(b)
    decreases |b|
  {
    assert AllDigits(a + b) by {
      forall i | 0 <= i < |a + b| ensures IsDigit((a + b)[i]) {
        if i < |a| { assert (a + b)[i] == a[i]; } else { assert (a + b)[i] == b[i - |a|]; }
      }
    }
    if b == [] {
      assert a + b == a;
    } else {
      var b' := b[..|b| - 1];
      assert (a + b)[..|a + b| - 1] == a + b';
      assert (a + b)[|a + b| - 1] == b[|b| - 1];
      assert b[..|b| - 1] == b';
      DigitsValueAppend(a, b');
      var x, p, y, e := DigitsValue(a), Pow10(|b'|), DigitsValue(b'), DigitValue(b[|b| - 1]);
      assert DigitsValue(a + b) == DigitsValue(a + b') * 10 + e;
      assert DigitsValue(a + b') == x * p + y;
      assert DigitsValue(b) == y * 10 + e;
      assert Pow10(|b|) == p * 10;
      assert (x * p + y) * 10 == x * (p * 10) + y * 10 by {
        MulDistributes(x * p, y, 10);
        MulAssociates(x, p, 10);
      }
    }
  }

  lemma MulDistributes(a: int, b: int, c: int)
    ensures (a + b) * c == a * c + b * c
  {
  }

  lemma MulAssociates(a: int, b: int, c: int)
    ensures (a * b) * c == a * (b * c)
  {
  }

  /** `k` digits never reach `10^k`. */
  lemma {:induction false} DigitsValueBound(ds: string)
    requires AllDigits(ds)
    ensures DigitsValue(ds) < Pow10(|ds|)
    decreases |ds|
  {
    if ds != [] {
      DigitsValueBound(ds[..|ds| - 1]);
    }
  }

  /** Reading back the digits that `str` writes gives the number. */
  lemma {:induction false} NatToStringValue(n: nat)
    ensures DigitsValue(NatToString(n)) == n
    decreases n
  {
    if n >= 10 {
      var s := NatToString(n);
      assert s[..|s| - 1] == NatToString(n / 10);
      NatToStringValue(n / 10);
    }
  }

  /** `str` never writes surrounding whitespace. */
  lemma IntToStringIsStripped(n: int)
    ensures IntToString(n) != [] && Trimmed(IntToString(n), IsSpace)
    ensures Strip(IntToString(n)) == IntToString(n)
  {
    var s := IntToString(n);
    assert !IsSpace(s[0]) && !IsSpace(s[|s| - 1]);
    TrimmedIsFixed(s, IsSpace);
  }

  /** `int(str(n)) == n`. */
  lemma ParseIntOfString(n: int)
    ensures ParseInt(IntToString(n)) == Some(n)
  {
    IntToStringIsStripped(n);
    NatToStringValue(Abs(n));
    if n < 0 {
      assert SplitSign(IntToString(n)).1 == NatToString(-n);
    }
  }

  /** `int(float(str(n))) == n`. */
  lemma TruncFloatOfString(n: int)
    ensures TruncFloat(IntToString(n)) == Some(n)
  {
    IntToStringIsStripped(n);
    NatToStringValue(Abs(n));
    var body := NatToString(Abs(n));
    assert SplitSign(IntToString(n)).1 == body;
    assert '.' !in body by {
      forall i | 0 <= i < |body| ensures body[i] != '.' { assert IsDigit(body[i]); }
    }
    assert IndexOf(body, '.') == |body|;
    assert body[..|body|] == body;
  }

  /** `int(float(s))` truncates toward zero: with `s` read as `n / 10^k`, the result `r`
      has the sign of `s` and `|r| <= n / 10^k < |r| + 1`. */
  lemma TruncatesTowardZero(s: string)
    requires ParseDecimal(s).Some?
    ensures TruncFloat(s).Some?
    ensures var d := ParseDecimal(s).value;
            var r := TruncFloat(s).value;
            var n := DigitsValue(d.whole + d.fraction);
            var q := Pow10(|d.fraction|);
            && Abs(r) * q <= n < (Abs(r) + 1) * q
            && (d.negative ==> r <= 0)
            && (!d.negative ==> r >= 0)
  {
    var d := ParseDecimal(s).value;
    DigitsValueAppend(d.whole, d.fraction);
    DigitsValueBound(d.fraction);
    var w := DigitsValue(d.whole);
    var q := Pow10(|d.fraction|);
    assert Abs(Truncate(d)) == w;
    MulDistributes(w, 1, q);
  }

  /** A run of digits is its own `strip`. */
  lemma DigitsAreStripped(ds: string)
    requires AllDigits(ds)
    ensures Strip(ds) == ds
  {
    if ds != [] {
      assert IsDigit(ds[0]) && IsDigit(ds[|ds| - 1]);
    }
    TrimmedIsFixed(ds, IsSpace);
  }

  /** `int(ds)` of a non-empty run of digits is its decimal value. */
  lemma ParseIntOfDigits(ds: string)
    requires ds != [] && AllDigits(ds)
    ensures ParseInt(ds) == Some(DigitsValue(ds))
  {
    DigitsAreStripped(ds);
    assert IsDigit(ds[0]);
  }

  /** `int(float("w.f"))` of digit runs `w` (non-empty) and `f` is the value of `w`. */
  lemma TruncFloatOfDecimal(w: string, f: string)
    requires w != [] && AllDigits(w) && AllDigits(f)
    ensures TruncFloat(w + "." + f) == Some(DigitsValue(w))
  {
    var t := w + "." + f;
    assert t[0] == w[0] && IsDigit(w[0]);
    assert !IsSpace(t[|t| - 1]) by {
      if f == [] { assert t[|t| - 1] == '.'; } else { assert t[|t| - 1] == f[|f| - 1] && IsDigit(f[|f| - 1]); }
    }
    TrimmedIsFixed(t, IsSpace);
    assert SplitSign(t) == (false, t);
    assert IndexOf(t, '.') == |w| by {
      assert t[|w|] == '.';
      assert forall j | 0 <= j < |w| :: t[j] == w[j] && IsDigit(t[j]);
    }
    assert t[..|w|] == w && t[|w| + 1..] == f;
  }
}
