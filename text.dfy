/** Text operations the stages use on stored values: Python's str.index,
    slicing and str.split, SQL STRING_AGG, the byte order SQL uses to
    compare VARCHAR values, and the decimal number syntax read by Python's
    Decimal constructor. */
module Text {
  import opened Sql

  /** Python `s.index(c)`: the first position of `c`, or None where Python
      raises ValueError. */
  function IndexOf(s: string, c: char): (r: Option<nat>)
    ensures r.Some? ==> r.value < |s| && s[r.value] == c && c !in s[..r.value]
    ensures r.None? <==> c !in s
  {
    if s == [] then None
    else if s[0] == c then Some(0)
    else
      var rest := IndexOf(s[1..], c);
      assert s == [s[0]] + s[1..];
      if rest.Some? then
        assert s[..rest.value + 1] == [s[0]] + s[1..][..rest.value];
        Some(rest.value + 1)
      else None
  }

  lemma IndexOfPrefix(a: string, c: char, b: string)
    requires c !in a
    ensures IndexOf(a + [c] + b, c) == Some(|a|)
  {
    var s := a + [c] + b;
    assert s[|a|] == c;
    assert s[..|a|] == a;
  }

  /** Python slicing `s[i:j]` for indices within the string: empty when
      `i >= j`. */
  function Slice(s: string, i: nat, j: nat): (r: string)
    requires i <= |s| && j <= |s|
    ensures |r| == if i < j then j - i else 0
    ensures forall k :: 0 <= k < |r| ==> r[k] == s[i + k]
  {
    if i < j then s[i..j] else []
  }

  /** Adjacent slices join into the slice that spans them. */
  lemma SliceConcat(s: string, i: nat, j: nat, k: nat)
    requires i <= j <= k <= |s|
    ensures Slice(s, i, j) + Slice(s, j, k) == Slice(s, i, k)
  {
    var a, b, c := Slice(s, i, j), Slice(s, j, k), Slice(s, i, k);
    assert forall n :: 0 <= n < |c| ==> (a + b)[n] == c[n] by {
      forall n | 0 <= n < |c| ensures (a + b)[n] == c[n] {
        if n < |a| { assert (a + b)[n] == a[n]; } else { assert (a + b)[n] == b[n - |a|]; }
      }
    }
  }

  /** Python `s.split(c)` for a one-character separator: the pieces between
      the separators, always at least one. */
  function Split(s: string, c: char): (r: seq<string>)
    ensures |r| >= 1
    ensures forall k :: 0 <= k < |r| ==> c !in r[k]
    decreases |s|
  {
    match IndexOf(s, c)
    case None => [s]
    case Some(i) => [s[..i]] + Split(s[i + 1..], c)
  }

  /** SQL `STRING_AGG(x, c)` over a non-empty group: the values separated
      by `c`. */
  function Join(xs: seq<string>, c: char): string
    requires |xs| >= 1
  {
    if |xs| == 1 then xs[0] else xs[0] + [c] + Join(xs[1..], c)
  }

  /** Splitting a joined text at the separator gives back the values, when
      no value contains the separator. */
  lemma {:induction false} SplitJoin(xs: seq<string>, c: char)
    requires |xs| >= 1
    requires forall k :: 0 <= k < |xs| ==> c !in xs[k]
    ensures Split(Join(xs, c), c) == xs
  {
    if |xs| > 1 {
      var rest := Join(xs[1..], c);
      IndexOfPrefix(xs[0], c, rest);
      var s := xs[0] + [c] + rest;
      assert s[..|xs[0]|] == xs[0];
      assert s[|xs[0]| + 1..] == rest;
      SplitJoin(xs[1..], c);
      assert xs == [xs[0]] + xs[1..];
    }
  }

  /** VARCHAR comparison: lexicographic by character code. */
  predicate LexLeq(a: string, b: string)
  {
    if a == [] then true
    else if b == [] then false
    else if a[0] != b[0] then a[0] < b[0]
    else LexLeq(a[1..], b[1..])
  }

  lemma {:induction false} LexTotal(a: string, b: string)
    ensures LexLeq(a, b) || LexLeq(b, a)
  {
    if a != [] && b != [] && a[0] == b[0] { LexTotal(a[1..], b[1..]); }
  }

  lemma {:induction false} LexTransitive(a: string, b: string, c: string)
    requires LexLeq(a, b) && LexLeq(b, c)
    ensures LexLeq(a, c)
  {
    if a != [] && b != [] && c != [] && a[0] == b[0] && b[0] == c[0] {
      LexTransitive(a[1..], b[1..], c[1..]);
    }
  }

  lemma {:induction false} LexAntisymmetric(a: string, b: string)
    requires LexLeq(a, b) && LexLeq(b, a)
    ensures a == b
  {
    if a != [] && b != [] {
      LexAntisymmetric(a[1..], b[1..]);
      assert a == [a[0]] + a[1..] && b == [b[0]] + b[1..];
    }
  }

  // ----- decimal numbers -----

  predicate IsDigit(ch: char) { '0' <= ch <= '9' }

  predicate AllDigits(s: string) { forall k :: 0 <= k < |s| ==> IsDigit(s[k]) }

  function DigitValue(ch: char): nat
    requires IsDigit(ch)
  {
    (ch as int - '0' as int) as nat
  }

  /** The natural number a string of decimal digits denotes. */
  function DigitsValue(ds: string): nat
    requires AllDigits(ds)
  {
    if ds == [] then 0
    else DigitsValue(ds[..|ds| - 1]) * 10 + DigitValue(ds[|ds| - 1])
  }

  function Pow10(k: nat): (r: nat)
    ensures r >= 1
  {
    if k == 0 then 1 else 10 * Pow10(k - 1)
  }

  /** n digits denote less than 10^n. */
  lemma {:induction false} DigitsBelowPow10(ds: string)
    requires AllDigits(ds)
    ensures DigitsValue(ds) < Pow10(|ds|)
  {
    if ds != [] {
      var init := ds[..|ds| - 1];
      assert AllDigits(init) by {
        forall k | 0 <= k < |init| ensures IsDigit(init[k]) { assert init[k] == ds[k]; }
      }
      DigitsBelowPow10(init);
      assert DigitsValue(ds) == DigitsValue(init) * 10 + DigitValue(ds[|ds| - 1]);
      assert DigitsValue(init) * 10 + 10 <= Pow10(|init|) * 10;
    }
  }

  /** The value of the digits after a decimal point: a fraction in [0, 1). */
  function Fraction(fp: string): (r: real)
    requires AllDigits(fp)
    ensures 0.0 <= r < 1.0
  {
    DigitsBelowPow10(fp);
    ProperQuotient(DigitsValue(fp) as real, Pow10(|fp|) as real);
    DigitsValue(fp) as real / Pow10(|fp|) as real
  }

  lemma ProperQuotient(a: real, b: real)
    requires 0.0 <= a < b
    ensures 0.0 <= a / b < 1.0
  {
    assert a / b * b == a;
  }

  /** The shortest decimal digits of a natural number. */
  function NatText(n: nat): (r: string)
    ensures |r| >= 1 && AllDigits(r) && '.' !in r
    ensures DigitsValue(r) == n
  {
    var d := ['0' + (n % 10) as char];
    if n < 10 then d
    else
      var r := NatText(n / 10) + d;
      assert r[..|r| - 1] == NatText(n / 10);
      r
  }

  /** The value of a decimal text accepted by Python's `Decimal`: an
      optional sign, digits, and an optional fraction after a '.', with at
      least one digit. None where `Decimal` raises InvalidOperation. */
  function ParseDecimal(s: string): Option<real>
  {
    if |s| > 0 && s[0] == '-' then
      match ParseUnsigned(s[1..])
      case None => None
      case Some(v) => Some(-v)
    else if |s| > 0 && s[0] == '+' then ParseUnsigned(s[1..])
    else ParseUnsigned(s)
  }

  /** An unsigned decimal: digits, optionally a '.' and more digits. */
  function ParseUnsigned(body: string): Option<real>
  {
    var (ip, fp) := AtDot(body);
    if AllDigits(ip) && AllDigits(fp) && |ip| + |fp| >= 1 then
      Some(DigitsValue(ip) as real + Fraction(fp))
    else None
  }

  /** The text before and after the first '.', the second empty when there
      is none. */
  function AtDot(body: string): (string, string)
  {
    match IndexOf(body, '.')
    case None => (body, [])
    case Some(k) => (body[..k], body[k + 1..])
  }

  /** The way such a number is written: sign, integer digits, and the
      fraction digits after a '.' when there are any. */
  function DecimalText(neg: bool, whole: nat, frac: string): string
    requires AllDigits(frac)
  {
    (if neg then "-" else "") + UnsignedText(whole, frac)
  }

  function UnsignedText(whole: nat, frac: string): string
    requires AllDigits(frac)
  {
    NatText(whole) + (if frac == [] then "" else "." + frac)
  }

  function DecimalValue(neg: bool, whole: nat, frac: string): real
    requires AllDigits(frac)
  {
    var v := whole as real + Fraction(frac);
    if neg then -v else v
  }

  lemma UnsignedRoundTrip(whole: nat, frac: string)
    requires AllDigits(frac)
    ensures ParseUnsigned(UnsignedText(whole, frac))
            == Some(whole as real + Fraction(frac))
  {
    DigitsDotDigits(NatText(whole), frac);
  }

  /** Digits, then a '.' and digits when there are any, read back as their value. */
  lemma DigitsDotDigits(w: string, frac: string)
    requires AllDigits(w) && |w| >= 1 && AllDigits(frac)
    ensures ParseUnsigned(w + (if frac == [] then "" else "." + frac))
            == Some(DigitsValue(w) as real + Fraction(frac))
  {
    var body := w + (if frac == [] then "" else "." + frac);
    AtDotOfDigits(w, frac);
    ParseAtDot(body, w, frac);
  }

  lemma AtDotOfDigits(w: string, frac: string)
    requires AllDigits(w)
    ensures AtDot(w + (if frac == [] then "" else "." + frac)) == (w, frac)
  {
    var body := w + (if frac == [] then "" else "." + frac);
    assert '.' !in w by {
      forall k | 0 <= k < |w| ensures w[k] != '.' { assert IsDigit(w[k]); }
    }
    if frac == [] {
      assert body == w;
    } else {
      IndexOfPrefix(w, '.', frac);
      assert body == w + ['.'] + frac;
      assert body[..|w|] == w;
      assert body[|w| + 1..] == frac;
    }
  }

  lemma ParseAtDot(body: string, ip: string, fp: string)
    requires AtDot(body) == (ip, fp)
    requires AllDigits(ip) && AllDigits(fp) && |ip| >= 1
    ensures ParseUnsigned(body) == Some(DigitsValue(ip) as real + Fraction(fp))
  {
  }

  /** A sign in front of an unsigned decimal: '-' negates, no sign keeps
      the value. */
  lemma ParseSigned(body: string, v: real)
    requires |body| > 0 && IsDigit(body[0]) && ParseUnsigned(body) == Some(v)
    ensures ParseDecimal("-" + body) == Some(-v)
    ensures ParseDecimal(body) == Some(v)
  {
    var t := "-" + body;
    assert t[0] == '-' && t[1..] == body;
  }

  /** Reading back a written decimal gives its value. */
  lemma DecimalRoundTrip(neg: bool, whole: nat, frac: string)
    requires AllDigits(frac)
    ensures ParseDecimal(DecimalText(neg, whole, frac)) == Some(DecimalValue(neg, whole, frac))
  {
    var body := UnsignedText(whole, frac);
    var v := whole as real + Fraction(frac);
    UnsignedRoundTrip(whole, frac);
    assert IsDigit(body[0]);
    ParseSigned(body, v);
    if neg {
      assert DecimalText(neg, whole, frac) == "-" + body;
      assert DecimalValue(neg, whole, frac) == -v;
    } else {
      assert DecimalText(neg, whole, frac) == body;
      assert DecimalValue(neg, whole, frac) == v;
    }
  }
}
