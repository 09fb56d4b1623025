/**
 * JavaScript values as the frontend sees them: the primitive cells of a JSON
 * object, truthiness, the `||` fallback on optional strings, `Number(text)` for
 * the decimal texts a form field holds, and `String(n)` for decimal literals.
 */
module JsValues {
  import opened Wrappers

  /** A primitive JSON value as it appears in a row, a request body or a prop. */
  datatype Cell = Str(s: string) | Num(x: real) | Bool(b: bool) | Null | Undefined

  /** JavaScript truthiness of a primitive (NaN is not representable here). */
  predicate Truthy(c: Cell) {
    match c
    case Str(s) => s != ""
    case Num(x) => x != 0.0
    case Bool(b) => b
    case Null => false
    case Undefined => false
  }

  /** A JSON object read as a map; a missing key reads as `undefined`. */
  function Get(obj: map<string, Cell>, key: string): (c: Cell)
    ensures key !in obj ==> c == Undefined
    ensures key in obj ==> c == obj[key]
  {
    if key in obj then obj[key] else Undefined
  }

  /** `v || fallback` where `v` is a string that may be missing: the empty string is falsy too. */
  function OrElse(v: Option<string>, fallback: string): (r: string)
    ensures r == fallback || (v.Some? && r == v.value && r != "")
    ensures v.Some? && v.value != "" ==> r == v.value
  {
    if v.Some? && v.value != "" then v.value else fallback
  }

  // ---------------------------------------------------------------------------
  // Decimal digits
  // ---------------------------------------------------------------------------

  predicate IsDigit(c: char) { '0' <= c <= '9' }

  predicate AllDigits(s: string) { forall i :: 0 <= i < |s| ==> IsDigit(s[i]) }

  function DigitValue(c: char): nat
    requires IsDigit(c)
  {
    (c as int) - ('0' as int)
  }

  function DigitChar(d: nat): (c: char)
    requires d < 10
    ensures IsDigit(c) && DigitValue(c) == d
  {
    ('0' as int + d) as char
  }

  /** The value of a string of decimal digits, most significant first. */
  function DigitsValue(s: string): nat
    requires AllDigits(s)
    decreases |s|
  {
    if s == [] then 0 else DigitsValue(s[..|s| - 1]) * 10 + DigitValue(s[|s| - 1])
  }

  function Pow10(k: nat): (p: nat)
    ensures p >= 1
  {
    if k == 0 then 1 else 10 * Pow10(k - 1)
  }

  /** Index of the first occurrence of `c` in `s`, or `|s|` when there is none. */
  function IndexOf(s: string, c: char): (i: nat)
    ensures i <= |s|
    ensures c !in s[..i]
    ensures i < |s| ==> s[i] == c
  {
    if s == [] then 0 else if s[0] == c then 0 else 1 + IndexOf(s[1..], c)
  }

  // ---------------------------------------------------------------------------
  // Number(text)
  // ---------------------------------------------------------------------------

  /** Digits with an optional fraction (`12`, `12.5`, `12.`, `.5`); None for anything else. */
  function UnsignedValue(s: string): Option<real> {
    var dot := IndexOf(s, '.');
    var whole := s[..dot];
    var fraction := if dot < |s| then s[dot + 1..] else "";
    if AllDigits(whole) && AllDigits(fraction) && |whole| + |fraction| > 0 then
      Some(DigitsValue(whole) as real + DigitsValue(fraction) as real / Pow10(|fraction|) as real)
    else
      None
  }

  /**
   * `Number(text)` on the decimal texts this model covers: an optional sign and
   * an unsigned decimal; the empty text is 0. None stands for NaN.
   */
  function ParseNumber(s: string): (r: Option<real>)
    ensures s == "" ==> r == Some(0.0)
    ensures s != "" && AllDigits(s) ==> r == Some(DigitsValue(s) as real)
    ensures HasStrayChar(s) ==> r.None?
    ensures |s| > 0 && !IsDigit(s[0]) && s[0] !in ".-+" ==> r.None?
    ensures HasTwoPoints(s) ==> r.None?
    ensures s != "" && !HasDigit(s) ==> r.None?
  {
    if s == "" then Some(0.0)
    else
      UnsignedRejects(s);
      AfterSignRejects(s);
      if AllDigits(s) then UnsignedDigits(s); UnsignedValue(s)
      else if s[0] == '-' then
      match UnsignedValue(s[1..])
      case Some(v) => Some(-v)
      case None => None
    else if s[0] == '+' then UnsignedValue(s[1..])
    else UnsignedValue(s)
  }

  /** A character after the first that is neither a digit nor a point. */
  predicate HasStrayChar(s: string) {
    exists p :: 0 < p < |s| && !IsDigit(s[p]) && s[p] != '.'
  }

  predicate HasTwoPoints(s: string) {
    exists p, q :: 0 <= p < q < |s| && s[p] == '.' && s[q] == '.'
  }

  predicate HasDigit(s: string) {
    exists p :: 0 <= p < |s| && IsDigit(s[p])
  }

  /** A decimal text is rejected when it holds any character but digits and one point, or no digit at all. */
  lemma UnsignedRejects(t: string)
    ensures forall p :: 0 <= p < |t| && !IsDigit(t[p]) && t[p] != '.' ==> UnsignedValue(t).None?
    ensures forall p, q :: 0 <= p < q < |t| && t[p] == '.' && t[q] == '.' ==> UnsignedValue(t).None?
    ensures (forall p :: 0 <= p < |t| ==> !IsDigit(t[p])) ==> UnsignedValue(t).None?
  {
    var dot := IndexOf(t, '.');
    var whole := t[..dot];
    var fraction := if dot < |t| then t[dot + 1..] else "";
    forall p | 0 <= p < |t| && !IsDigit(t[p]) && t[p] != '.' ensures UnsignedValue(t).None? {
      if p < dot {
        assert whole[p] == t[p];
      } else {
        assert fraction[p - dot - 1] == t[p];
      }
    }
    forall p | 0 <= p < dot ensures t[p] != '.' {
      assert t[..dot][p] == t[p];
    }
    forall p, q | 0 <= p < q < |t| && t[p] == '.' && t[q] == '.' ensures UnsignedValue(t).None? {
      assert fraction[q - dot - 1] == '.';
    }
    if forall p :: 0 <= p < |t| ==> !IsDigit(t[p]) {
      if |whole| > 0 {
        assert !IsDigit(whole[0]);
      } else if |fraction| > 0 {
        assert !IsDigit(fraction[0]);
      }
    }
  }

  /** The same rejections for the text after a leading sign. */
  lemma AfterSignRejects(s: string)
    requires |s| > 0
    ensures forall p :: 0 < p < |s| && !IsDigit(s[p]) && s[p] != '.' ==> UnsignedValue(s[1..]).None?
    ensures forall p, q :: 0 < p < q < |s| && s[p] == '.' && s[q] == '.' ==> UnsignedValue(s[1..]).None?
    ensures (forall p :: 0 < p < |s| ==> !IsDigit(s[p])) ==> UnsignedValue(s[1..]).None?
  {
    var t := s[1..];
    UnsignedRejects(t);
    forall p | 0 < p < |s| && !IsDigit(s[p]) && s[p] != '.' ensures UnsignedValue(t).None? {
      assert t[p - 1] == s[p];
    }
    forall p, q | 0 < p < q < |s| && s[p] == '.' && s[q] == '.' ensures UnsignedValue(t).None? {
      assert t[p - 1] == s[p] && t[q - 1] == s[q];
    }
    if forall p :: 0 < p < |s| ==> !IsDigit(s[p]) {
      forall p | 0 <= p < |t| ensures !IsDigit(t[p]) {
        assert t[p] == s[p + 1];
      }
    }
  }

  /** A text of digits alone reads as their value. */
  lemma UnsignedDigits(t: string)
    requires AllDigits(t) && |t| > 0
    ensures UnsignedValue(t) == Some(DigitsValue(t) as real)
  {
    assert forall k :: 0 <= k < |t| ==> t[k] != '.';
    UnsignedValueWhole(t);
  }

  // ---------------------------------------------------------------------------
  // String(n) for decimal literals
  // ---------------------------------------------------------------------------

  /** A decimal number literal: `units / 10^scale`, e.g. 0.17 is Decimal(17, 2). */
  datatype Decimal = Decimal(units: int, scale: nat)

  function DecimalValue(d: Decimal): real {
    d.units as real / Pow10(d.scale) as real
  }

  /** The digits of `n`, without leading zeros. */
  function NatText(n: nat): (t: string)
    ensures |t| >= 1 && AllDigits(t)
    decreases n
  {
    if n < 10 then [DigitChar(n)] else NatText(n / 10) + [DigitChar(n % 10)]
  }

  function Zeros(k: nat): (z: string)
    ensures |z| == k && AllDigits(z)
  {
    if k == 0 then "" else Zeros(k - 1) + "0"
  }

  /** `t` left-padded with zeros to `width` characters. */
  function PadLeft(t: string, width: nat): (r: string)
    requires AllDigits(t)
    ensures AllDigits(r) && |r| == if |t| < width then width else |t|
  {
    if |t| < width then Zeros(width - |t|) + t else t
  }

  function Magnitude(d: Decimal): nat {
    if d.units < 0 then -d.units else d.units
  }

  /** The text of a non-negative decimal, `units` digits with the point `scale` places from the right. */
  function UnsignedText(n: nat, scale: nat): string {
    var p := Pow10(scale);
    DivisionFacts(n, p);
    var whole := NatText(n / p);
    if scale == 0 then whole else whole + "." + PadLeft(NatText(n % p), scale)
  }

  /** `String(n)` for a decimal literal `n`. */
  function NumberText(d: Decimal): (t: string)
    ensures |t| > 0 && (t[0] == '-' <==> d.units < 0)
  {
    LeadingDigit(Magnitude(d), d.scale);
    Signed(d.units < 0, UnsignedText(Magnitude(d), d.scale))
  }

  /** `body`, after a minus sign when `negative`. */
  function Signed(negative: bool, body: string): string {
    if negative then "-" + body else body
  }

  lemma {:induction false} NatTextValue(n: nat)
    ensures DigitsValue(NatText(n)) == n
    decreases n
  {
    if n >= 10 {
      var t := NatText(n);
      assert t[..|t| - 1] == NatText(n / 10);
      NatTextValue(n / 10);
    }
  }

  lemma {:induction false} NatTextLength(n: nat, k: nat)
    requires k >= 1 && n < Pow10(k)
    ensures |NatText(n)| <= k
    decreases n
  {
    if n >= 10 {
      assert k >= 2;
      assert n / 10 < Pow10(k - 1);
      NatTextLength(n / 10, k - 1);
    }
  }

  lemma {:induction false} ZerosPrefixValue(k: nat, t: string)
    requires AllDigits(t)
    ensures DigitsValue(Zeros(k) + t) == DigitsValue(t)
    decreases |t|, k
  {
    var z := Zeros(k);
    if t == [] {
      assert z + t == z;
      if k > 0 {
        assert z[..|z| - 1] == Zeros(k - 1) + [];
        ZerosPrefixValue(k - 1, []);
      }
    } else {
      var u := z + t;
      assert u[..|u| - 1] == z + t[..|t| - 1];
      ZerosPrefixValue(k, t[..|t| - 1]);
    }
  }

  lemma {:induction false} NatTextHasNoDot(n: nat)
    ensures IndexOf(NatText(n), '.') == |NatText(n)|
  {
    var t := NatText(n);
    assert '.' !in t by {
      forall j | 0 <= j < |t| ensures t[j] != '.' { assert IsDigit(t[j]); }
    }
  }

  lemma {:induction false} IndexOfAfterPrefix(a: string, b: string, c: char)
    requires IndexOf(a, c) == |a|
    ensures IndexOf(a + b, c) == |a| + IndexOf(b, c)
    decreases |a|
  {
    if a != [] {
      assert (a + b)[1..] == a[1..] + b;
      assert a[0] != c;
      IndexOfAfterPrefix(a[1..], b, c);
    } else {
      assert a + b == b;
    }
  }

  lemma DivisionFacts(n: nat, p: nat)
    requires p >= 1
    ensures 0 <= n / p && 0 <= n % p < p && n == (n / p) * p + n % p
  {
  }

  lemma QuotientRemainder(n: nat, p: nat, q: nat, r: nat)
    requires p >= 1 && n == q * p + r
    ensures q as real + r as real / p as real == n as real / p as real
  {
    assert (n as real) == (q as real) * (p as real) + (r as real);
  }

  lemma NegatedQuotient(a: real, p: real)
    requires p > 0.0
    ensures -(a / p) == (-a) / p
  {
  }

  lemma {:induction false} UnsignedValueWhole(whole: string)
    requires AllDigits(whole) && |whole| > 0 && IndexOf(whole, '.') == |whole|
    ensures UnsignedValue(whole) == Some(DigitsValue(whole) as real)
  {
    assert whole[..|whole|] == whole;
    var f: string := "";
    assert DigitsValue(f) as real / Pow10(|f|) as real == 0.0;
  }

  lemma {:induction false} UnsignedValueSplit(whole: string, frac: string)
    requires AllDigits(whole) && AllDigits(frac) && |whole| > 0 && IndexOf(whole, '.') == |whole|
    ensures UnsignedValue(whole + "." + frac)
         == Some(DigitsValue(whole) as real + DigitsValue(frac) as real / Pow10(|frac|) as real)
  {
    var s := whole + "." + frac;
    assert s == whole + ("." + frac);
    IndexOfAfterPrefix(whole, "." + frac, '.');
    assert IndexOf(s, '.') == |whole|;
    assert s[..|whole|] == whole;
    assert s[|whole| + 1..] == frac;
  }

  lemma {:induction false} PaddedValue(r: nat, scale: nat)
    requires scale >= 1 && r < Pow10(scale)
    ensures |PadLeft(NatText(r), scale)| == scale
    ensures DigitsValue(PadLeft(NatText(r), scale)) == r
  {
    NatTextLength(r, scale);
    NatTextValue(r);
    if |NatText(r)| < scale {
      ZerosPrefixValue(scale - |NatText(r)|, NatText(r));
    }
  }

  lemma {:induction false} WholeTextValue(n: nat)
    ensures UnsignedValue(UnsignedText(n, 0)) == Some(n as real / Pow10(0) as real)
  {
    assert UnsignedText(n, 0) == NatText(n / 1);
    assert n / 1 == n;
    NatTextHasNoDot(n);
    NatTextValue(n);
    UnsignedValueWhole(NatText(n));
  }

  lemma {:induction false} FractionTextValue(n: nat, scale: nat)
    requires scale >= 1
    ensures UnsignedValue(UnsignedText(n, scale)) == Some(n as real / Pow10(scale) as real)
  {
    var p := Pow10(scale);
    DivisionFacts(n, p);
    var q: nat, r: nat := n / p, n % p;
    assert UnsignedText(n, scale) == NatText(q) + "." + PadLeft(NatText(r), scale);
    SplitTextValue(q, r, scale);
    QuotientRemainder(n, p, q, r);
  }


  /** The text with whole part `q` and `scale` fractional digits `r` reads back as `q + r / 10^scale`. */
  lemma {:induction false} SplitTextValue(q: nat, r: nat, scale: nat)
    requires scale >= 1 && r < Pow10(scale)
    ensures UnsignedValue(NatText(q) + "." + PadLeft(NatText(r), scale))
         == Some(q as real + r as real / Pow10(scale) as real)
  {
    var whole := NatText(q);
    var frac := PadLeft(NatText(r), scale);
    NatTextHasNoDot(q);
    NatTextValue(q);
    PaddedValue(r, scale);
    UnsignedValueSplit(whole, frac);
  }

  /** Reading back the text of a non-negative decimal gives its value. */
  lemma {:induction false} UnsignedTextValue(n: nat, scale: nat)
    ensures UnsignedValue(UnsignedText(n, scale)) == Some(n as real / Pow10(scale) as real)
  {
    if scale == 0 {
      WholeTextValue(n);
    } else {
      FractionTextValue(n, scale);
    }
  }

  /** Reading back the text of a decimal literal gives its value: `Number(String(n)) == n`. */
  lemma {:induction false} ParseNumberText(d: Decimal)
    ensures ParseNumber(NumberText(d)) == Some(DecimalValue(d))
  {
    var n := Magnitude(d);
    UnsignedTextValue(n, d.scale);
    LeadingDigit(n, d.scale);
    SignedValue(d, UnsignedText(n, d.scale));
  }

  /** A minus sign before the text of a decimal's magnitude gives the decimal's (negative) value. */
  lemma SignedValue(d: Decimal, body: string)
    requires |body| > 0 && IsDigit(body[0])
    requires UnsignedValue(body) == Some(Magnitude(d) as real / Pow10(d.scale) as real)
    ensures ParseNumber(Signed(d.units < 0, body)) == Some(DecimalValue(d))
  {
    MagnitudeValue(d);
    if d.units < 0 {
      assert ("-" + body)[1..] == body;
      NegativeParse("-" + body);
    } else {
      PositiveParse(body);
    }
  }

  /** A minus sign before a text that starts with a digit negates the text's value. */
  lemma NegativeParse(s: string)
    requires |s| > 1 && s[0] == '-' && IsDigit(s[1])
    ensures ParseNumber(s) == match UnsignedValue(s[1..]) case Some(v) => Some(-v) case None => None
  {
    assert !IsDigit(s[0]);
  }

  /** A text that starts with a digit carries no sign. */
  lemma PositiveParse(body: string)
    requires |body| > 0 && IsDigit(body[0])
    ensures ParseNumber(body) == UnsignedValue(body)
  {
    if AllDigits(body) {
      UnsignedDigits(body);
    }
  }

  /** A decimal's value is its magnitude's, negated when its units are negative. */
  lemma MagnitudeValue(d: Decimal)
    ensures var v := Magnitude(d) as real / Pow10(d.scale) as real;
      DecimalValue(d) == if d.units < 0 then -v else v
  {
    if d.units < 0 {
      NegatedQuotient(Magnitude(d) as real, Pow10(d.scale) as real);
    }
  }

  /** The text of a non-negative decimal starts with a digit, so it carries no sign. */
  lemma LeadingDigit(n: nat, scale: nat)
    ensures |UnsignedText(n, scale)| > 0 && IsDigit(UnsignedText(n, scale)[0])
  {
    var p := Pow10(scale);
    DivisionFacts(n, p);
    var whole := NatText(n / p);
    assert IsDigit(whole[0]);
    if scale > 0 {
      var t := whole + "." + PadLeft(NatText(n % p), scale);
      assert UnsignedText(n, scale) == t;
      assert t[0] == whole[0];
    }
  }

}
