/**
 * Decimal and hexadecimal digit strings: Python's `int(s)` and `int(s, 16)`
 * conversions and the zero-padded `{:0Nd}` / `{:0Nx}` renderings that the
 * product file names and the search filters use.
 */
module Digits {
  import opened Wrappers

  predicate IsHexDigit(c: char) {
    ('0' <= c <= '9') || ('a' <= c <= 'f') || ('A' <= c <= 'F')
  }

  predicate IsLowerHexDigit(c: char) {
    ('0' <= c <= '9') || ('a' <= c <= 'f')
  }

  function DigitValue(c: char): (d: nat)
    requires IsHexDigit(c)
    ensures d < 16
    ensures ('0' <= c <= '9') <==> d < 10
  {
    if '0' <= c <= '9' then c as int - '0' as int
    else if 'a' <= c <= 'f' then c as int - 'a' as int + 10
    else c as int - 'A' as int + 10
  }

  /** `c` is a digit of the given base (10 or 16), either letter case. */
  predicate IsDigitIn(c: char, base: nat) {
    IsHexDigit(c) && DigitValue(c) < base
  }

  predicate AllDigits(s: string, base: nat) {
    forall i :: 0 <= i < |s| ==> IsDigitIn(s[i], base)
  }

  predicate AllLowerHex(s: string) {
    forall i :: 0 <= i < |s| ==> IsLowerHexDigit(s[i])
  }

  /** The lower-case digit for `d`, as Python's `x` and `d` format codes write it. */
  function DigitChar(d: nat): (c: char)
    requires d < 16
    ensures IsLowerHexDigit(c) && DigitValue(c) == d
  {
    if d < 10 then ('0' as int + d) as char else ('a' as int + d - 10) as char
  }

  function Pow(b: nat, e: nat): (p: nat)
    ensures b >= 1 ==> p >= 1
  {
    if e == 0 then 1 else b * Pow(b, e - 1)
  }

  /** Positional value of a digit string, most significant digit first. */
  function ValueOf(s: string, base: nat): nat
    requires AllDigits(s, base)
  {
    if s == [] then 0 else ValueOf(s[..|s| - 1], base) * base + DigitValue(s[|s| - 1])
  }

  function Zeros(k: nat): (z: string)
    ensures |z| == k && forall i :: 0 <= i < k ==> z[i] == '0'
  {
    if k == 0 then [] else Zeros(k - 1) + ['0']
  }

  /** Shortest digit string of `n` (`"0"` for zero), lower-case letters. */
  function ToDigits(n: nat, base: nat): (s: string)
    requires 2 <= base <= 16
    ensures |s| >= 1 && AllDigits(s, base) && AllLowerHex(s)
    ensures ValueOf(s, base) == n
    decreases n
  {
    if n < base then
      [DigitChar(n)]
    else
      DivMod(n, base);
      var t := ToDigits(n / base, base);
      var c := DigitChar(n % base);
      ValueOfSnoc(t, c, base);
      t + [c]
  }

  lemma DivMod(n: nat, b: nat)
    requires b >= 2
    ensures n == (n / b) * b + n % b && n % b < b
    ensures n >= b ==> n / b < n
  {
  }

  /** Appending one digit multiplies by the base and adds the digit. */
  lemma ValueOfSnoc(t: string, c: char, base: nat)
    requires AllDigits(t, base) && IsDigitIn(c, base)
    ensures AllDigits(t + [c], base)
    ensures ValueOf(t + [c], base) == ValueOf(t, base) * base + DigitValue(c)
  {
    assert (t + [c])[..|t|] == t;
  }

  /** Left-pad with zeros up to `width` characters. */
  function ZeroPad(s: string, width: nat): (r: string)
    ensures |r| == if |s| >= width then |s| else width
    ensures |s| < width ==> r[..width - |s|] == Zeros(width - |s|) && r[width - |s|..] == s
    ensures |s| >= width ==> r == s
  {
    if |s| >= width then s else Zeros(width - |s|) + s
  }

  /**
   * Python's `'{:0<width><code>}'.format(n)` for an integer, with code `d`
   * (base 10) or `x` (base 16): the sign comes first and the zeros pad the
   * digits up to `width` characters in all.
   */
  function FormatInt(n: int, base: nat, width: nat): string
    requires base == 10 || base == 16
  {
    if n < 0 then "-" + ZeroPad(ToDigits(-n, base), if width > 0 then width - 1 else 0)
    else ZeroPad(ToDigits(n, base), width)
  }

  /** An optional leading sign, as Python's `int` accepts it. */
  function SplitSign(s: string): (bool, string) {
    if |s| > 0 && s[0] == '-' then (true, s[1..])
    else if |s| > 0 && s[0] == '+' then (false, s[1..])
    else (false, s)
  }

  function Signed(negative: bool, magnitude: nat): int {
    if negative then 0 - magnitude as int else magnitude as int
  }

  /** Python's `int(s)`: optional sign, then one or more decimal digits. */
  function ParseDecimal(s: string): Option<int> {
    var (negative, body) := SplitSign(s);
    if |body| > 0 && AllDigits(body, 10) then Some(Signed(negative, ValueOf(body, 10))) else None
  }

  function StripHexPrefix(s: string): string {
    if |s| >= 2 && s[0] == '0' && (s[1] == 'x' || s[1] == 'X') then s[2..] else s
  }

  /** Python's `int(s, 16)`: optional sign, optional `0x`/`0X`, hex digits of either case. */
  function ParseHexadecimal(s: string): Option<int> {
    var (negative, rest) := SplitSign(s);
    var body := StripHexPrefix(rest);
    if |body| > 0 && AllDigits(body, 16) then Some(Signed(negative, ValueOf(body, 16))) else None
  }

  function Parse(s: string, base: nat): Option<int>
    requires base == 10 || base == 16
  {
    if base == 10 then ParseDecimal(s) else ParseHexadecimal(s)
  }

  // ---------------------------------------------------------------------
  // Lemmas

  lemma {:induction false} ValueOfZeros(k: nat, base: nat)
    ensures AllDigits(Zeros(k), base) <== base >= 1
    ensures base >= 1 ==> ValueOf(Zeros(k), base) == 0
  {
    if k > 0 && base >= 1 {
      ValueOfZeros(k - 1, base);
      assert Zeros(k)[..k - 1] == Zeros(k - 1);
    }
  }

  /** Leading zeros do not change the value of a digit string. */
  lemma {:induction false} ValueOfPadded(k: nat, s: string, base: nat)
    requires base >= 2 && AllDigits(s, base)
    ensures AllDigits(Zeros(k) + s, base)
    ensures ValueOf(Zeros(k) + s, base) == ValueOf(s, base)
  {
    ValueOfZeros(k, base);
    if s == [] {
      assert Zeros(k) + s == Zeros(k);
    } else {
      var t := s[..|s| - 1];
      ValueOfPadded(k, t, base);
      assert (Zeros(k) + s)[..|Zeros(k) + s| - 1] == Zeros(k) + t;
    }
  }

  lemma ZeroPadDigits(s: string, width: nat, base: nat)
    requires base >= 2 && AllDigits(s, base)
    ensures AllDigits(ZeroPad(s, width), base)
    ensures ValueOf(ZeroPad(s, width), base) == ValueOf(s, base)
  {
    if |s| < width {
      ValueOfPadded(width - |s|, s, base);
    }
  }

  /** Rendering and re-parsing gives the number back, for every integer and width. */
  lemma FormatParseRoundTrip(n: int, base: nat, width: nat)
    requires base == 10 || base == 16
    ensures Parse(FormatInt(n, base, width), base) == Some(n)
  {
    var m: nat := if n < 0 then -n else n;
    var w: nat := if n < 0 then (if width > 0 then width - 1 else 0) else width;
    var body := ZeroPad(ToDigits(m, base), w);
    ZeroPadDigits(ToDigits(m, base), w, base);
    assert |body| >= 1;
    assert body[0] != '-' && body[0] != '+' && IsDigitIn(body[0], base);
    if n < 0 {
      var s := "-" + body;
      assert s[1..] == body;
      assert SplitSign(s) == (true, body);
    } else {
      assert SplitSign(body) == (false, body);
    }
    assert |body| >= 2 ==> body[1] != 'x' && body[1] != 'X' by {
      if |body| >= 2 { assert IsDigitIn(body[1], base); }
    }
    assert StripHexPrefix(body) == body;
  }

  /** Zero-padding a token does not change what it parses to. */
  lemma LeadingZerosIgnored(k: nat, s: string, base: nat)
    requires base == 10 || base == 16
    requires |s| > 0 && AllDigits(s, base) && s[0] != '0'
    ensures Parse(Zeros(k) + s, base) == Parse(s, base)
  {
    ValueOfPadded(k, s, base);
    var z := Zeros(k) + s;
    assert z[0] == '0' || z[0] == s[0];
    assert z[0] != '-' && z[0] != '+' by { assert IsDigitIn(z[0], base); }
    assert s[0] != '-' && s[0] != '+' by { assert IsDigitIn(s[0], base); }
    assert SplitSign(z) == (false, z);
    assert SplitSign(s) == (false, s);
    if base == 16 {
      assert |s| >= 2 ==> s[1] != 'x' && s[1] != 'X' by {
        if |s| >= 2 { assert IsDigitIn(s[1], base); }
      }
      assert StripHexPrefix(s) == s;
      if k >= 1 && |z| >= 2 {
        assert z[1] != 'x' && z[1] != 'X' by { assert IsDigitIn(z[1], base); }
      }
      assert StripHexPrefix(z) == z;
    }
  }

  /** A `0x`/`0X` prefix is accepted and ignored by the base-16 conversion. */
  lemma HexPrefixIgnored(s: string, upper: bool)
    requires |s| > 0 && AllDigits(s, 16)
    ensures ParseHexadecimal((if upper then "0X" else "0x") + s) == ParseHexadecimal(s)
  {
    var p := (if upper then "0X" else "0x") + s;
    assert SplitSign(p) == (false, p);
    assert StripHexPrefix(p) == s;
    assert s[0] != '-' && s[0] != '+' by { assert IsDigitIn(s[0], 16); }
    assert SplitSign(s) == (false, s);
    if |s| >= 2 {
      assert s[1] != 'x' && s[1] != 'X' by { assert IsDigitIn(s[1], 16); }
    }
    assert StripHexPrefix(s) == s;
  }

  function LowerChar(c: char): char {
    if 'A' <= c <= 'F' then (c as int - 'A' as int + 'a' as int) as char else c
  }

  function Lower(s: string): (r: string)
    ensures |r| == |s| && forall i :: 0 <= i < |s| ==> r[i] == LowerChar(s[i])
  {
    if s == [] then [] else [LowerChar(s[0])] + Lower(s[1..])
  }

  lemma LowerCharDigit(c: char)
    requires IsHexDigit(c)
    ensures IsHexDigit(LowerChar(c)) && DigitValue(LowerChar(c)) == DigitValue(c)
  {
  }

  /** Lower-casing keeps every character a hex digit. */
  lemma LowerDigits(s: string)
    requires AllDigits(s, 16)
    ensures AllDigits(Lower(s), 16)
  {
    forall i | 0 <= i < |s| ensures IsDigitIn(Lower(s)[i], 16) {
      LowerCharDigit(s[i]);
    }
  }

  lemma {:induction false} ValueOfLower(s: string)
    requires AllDigits(s, 16)
    ensures AllDigits(Lower(s), 16) && ValueOf(Lower(s), 16) == ValueOf(s, 16)
  {
    LowerDigits(s);
    if s != [] {
      var n := |s| - 1;
      var t, l := s[..n], Lower(s);
      ValueOfLower(t);
      assert l[..n] == Lower(t);
      LowerCharDigit(s[n]);
      assert ValueOf(l, 16) == ValueOf(l[..n], 16) * 16 + DigitValue(l[n]);
    }
  }

  /** A bare digit string has no sign and no `0x` prefix to strip. */
  lemma PlainDigits(s: string, base: nat)
    requires base == 10 || base == 16
    requires |s| > 0 && AllDigits(s, base)
    ensures Parse(s, base) == Some(ValueOf(s, base))
  {
    assert IsDigitIn(s[0], base);
    assert SplitSign(s) == (false, s);
    if |s| >= 2 { assert IsDigitIn(s[1], base); }
    assert StripHexPrefix(s) == s;
  }

  /** Hex digits are read case-insensitively: upper-case letters give the same number. */
  lemma HexCaseInsensitive(s: string)
    requires |s| > 0 && AllDigits(s, 16)
    ensures ParseHexadecimal(s) == ParseHexadecimal(Lower(s))
  {
    ValueOfLower(s);
    PlainDigits(s, 16);
    PlainDigits(Lower(s), 16);
  }

  lemma PowMonotone(b: nat, e: nat)
    requires b >= 2 && e >= 1
    ensures Pow(b, e) >= b
  {
    if e > 1 { PowMonotone(b, e - 1); }
  }

  lemma DivBound(n: nat, b: nat, p: nat)
    requires b >= 2
    ensures n / b < p <==> n < b * p
  {
    var q, r := n / b, n % b;
    assert n == b * q + r && 0 <= r < b;
    if q < p {
      assert q <= p - 1;
      assert b * q <= b * (p - 1);
    } else {
      assert b * q >= b * p;
    }
  }

  /** A number of at least `base` has one digit more than its quotient by `base`. */
  lemma ToDigitsLonger(n: nat, base: nat)
    requires 2 <= base <= 16 && n >= base
    ensures |ToDigits(n, base)| == |ToDigits(n / base, base)| + 1
  {
  }

  /** A non-negative number fits in `w >= 1` digits exactly when it is below `base^w`. */
  lemma {:induction false} DigitsLength(n: nat, base: nat, w: nat)
    requires 2 <= base <= 16 && w >= 1
    ensures |ToDigits(n, base)| <= w <==> n < Pow(base, w)
    decreases n
  {
    PowMonotone(base, w);
    if n >= base {
      var q := n / base;
      DivMod(n, base);
      ToDigitsLonger(n, base);
      var k := |ToDigits(q, base)|;
      var p := Pow(base, w - 1);
      assert Pow(base, w) == base * p;
      DivBound(n, base, p);
      if w > 1 {
        DigitsLength(q, base, w - 1);
        assert k <= w - 1 <==> q < p;
      } else {
        assert p == 1 && k >= 1;
      }
    }
  }

  /** In-range values render to exactly `width` lower-case digits. */
  lemma FormatWidth(n: int, base: nat, width: nat)
    requires base == 10 || base == 16
    requires width >= 1 && 0 <= n < Pow(base, width)
    ensures |FormatInt(n, base, width)| == width
    ensures AllDigits(FormatInt(n, base, width), base)
    ensures AllLowerHex(FormatInt(n, base, width))
  {
    DigitsLength(n, base, width);
    var d := ToDigits(n, base);
    ZeroPadDigits(d, width, base);
    ZeroPadLowerHex(d, width);
  }

  /** Zero padding keeps the digits lower-case. */
  lemma ZeroPadLowerHex(d: string, width: nat)
    requires AllLowerHex(d)
    ensures AllLowerHex(ZeroPad(d, width))
  {
    var r := ZeroPad(d, width);
    forall i | 0 <= i < |r| && |d| < width ensures IsLowerHexDigit(r[i]) {
      if i < width - |d| {
        assert r[i] == Zeros(width - |d|)[i];
      } else {
        assert r[i] == d[i - (width - |d|)];
      }
    }
  }

  /** Exactly `w` digits of `n` modulo `base^w`, most significant first. */
  function FixedDigits(n: nat, base: nat, w: nat): (s: string)
    requires 2 <= base <= 16
    ensures |s| == w
  {
    if w == 0 then [] else FixedDigits(n / base, base, w - 1) + [DigitChar(n % base)]
  }

  lemma {:induction false} FixedDigitsOfZero(base: nat, w: nat)
    requires 2 <= base <= 16
    ensures FixedDigits(0, base, w) == Zeros(w)
  {
    if w > 0 { FixedDigitsOfZero(base, w - 1); }
  }

  /** For in-range values the padded shortest rendering is the fixed-width one. */
  lemma {:induction false} PaddedIsFixed(n: nat, base: nat, w: nat)
    requires 2 <= base <= 16 && w >= 1 && n < Pow(base, w)
    ensures ZeroPad(ToDigits(n, base), w) == FixedDigits(n, base, w)
    decreases w
  {
    DivMod(n, base);
    DigitsLength(n, base, w);
    if n < base {
      FixedDigitsOfZero(base, w - 1);
      DivUnique(n, base, 0, n);
      assert ZeroPad([DigitChar(n)], w) == Zeros(w - 1) + [DigitChar(n)];
    } else {
      var t := ToDigits(n / base, base);
      var c := DigitChar(n % base);
      assert ToDigits(n, base) == t + [c];
      assert Pow(base, 1) == base;
      assert w > 1;
      var p := Pow(base, w - 1);
      assert Pow(base, w) == base * p;
      DivBound(n, base, p);
      PaddedIsFixed(n / base, base, w - 1);
      DigitsLength(n / base, base, w - 1);
      assert ZeroPad(t + [c], w) == ZeroPad(t, w - 1) + [c];
    }
  }

  lemma {:induction false} ValueOfBound(s: string, base: nat)
    requires 2 <= base <= 16 && AllDigits(s, base)
    ensures ValueOf(s, base) < Pow(base, |s|)
  {
    if s != [] {
      var t := s[..|s| - 1];
      ValueOfBound(t, base);
      assert ValueOf(s, base) == ValueOf(t, base) * base + DigitValue(s[|s| - 1]);
      assert Pow(base, |s|) == base * Pow(base, |t|);
      DigitStep(ValueOf(t, base), DigitValue(s[|s| - 1]), Pow(base, |t|), base);
    }
  }

  /** One more digit below `base` keeps a value below `p` under `p * base`. */
  lemma DigitStep(v: nat, d: nat, p: nat, base: nat)
    requires v < p && d < base
    ensures v * base + d < base * p
  {
    MulMono(v, p - 1, base);
    assert (p - 1) * base == p * base - base;
  }

  /** Reading `w` digits and writing them back with `w` fixed digits gives the lower-cased text. */
  lemma {:induction false} FixedDigitsCanonical(s: string, base: nat)
    requires 2 <= base <= 16 && AllDigits(s, base)
    ensures FixedDigits(ValueOf(s, base), base, |s|) == Lower(s)
  {
    if s != [] {
      var t := s[..|s| - 1];
      var c := s[|s| - 1];
      assert s == t + [c];
      assert IsDigitIn(c, base);
      FixedDigitsCanonical(t, base);
      FixedDigitsLast(s, base);
      LowerCharDigit(c);
      LowerSnoc(t, c);
    }
  }

  /** The fixed digits of a digit string's value end with its last digit, after those of the rest. */
  lemma FixedDigitsLast(s: string, base: nat)
    requires 2 <= base <= 16 && AllDigits(s, base) && s != []
    ensures FixedDigits(ValueOf(s, base), base, |s|) ==
      FixedDigits(ValueOf(s[..|s| - 1], base), base, |s| - 1) + [DigitChar(DigitValue(s[|s| - 1]))]
  {
    var c := s[|s| - 1];
    assert IsDigitIn(c, base);
    DivUnique(ValueOf(s, base), base, ValueOf(s[..|s| - 1], base), DigitValue(c));
  }

  lemma LowerSnoc(t: string, c: char)
    ensures Lower(t + [c]) == Lower(t) + [LowerChar(c)]
  {
    assert forall i :: 0 <= i < |t| ==> (t + [c])[i] == t[i];
  }

  lemma MulMono(x: nat, y: nat, b: nat)
    requires x <= y
    ensures x * b <= y * b
  {
    var d := y - x;
    assert y * b == x * b + d * b;
  }

  lemma DivUnique(n: nat, b: nat, q: nat, r: nat)
    requires b >= 2 && r < b && n == q * b + r
    ensures n / b == q && n % b == r
  {
    DivMod(n, b);
    var q0 := n / b;
    assert (q + 1) * b == q * b + b;
    assert (q0 + 1) * b == q0 * b + b;
    if q0 > q {
      MulMono(q + 1, q0, b);
      assert false;
    } else if q0 < q {
      MulMono(q0 + 1, q, b);
      assert false;
    }
  }

  /** A `w`-digit field re-renders with the `{:0wd}`/`{:0wx}` format to its own lower-cased text. */
  lemma RenderCanonical(s: string, base: nat)
    requires base == 10 || base == 16
    requires |s| >= 1 && AllDigits(s, base)
    ensures FormatInt(ValueOf(s, base), base, |s|) == Lower(s)
  {
    ValueOfBound(s, base);
    PaddedIsFixed(ValueOf(s, base), base, |s|);
    FixedDigitsCanonical(s, base);
  }

  /** Decimal digits are unaffected by lower-casing. */
  lemma LowerDecimal(s: string)
    requires AllDigits(s, 10)
    ensures Lower(s) == s
  {
    forall i | 0 <= i < |s| ensures Lower(s)[i] == s[i] {
      assert IsDigitIn(s[i], 10);
    }
  }
}
