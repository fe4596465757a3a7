/**
 * The values a search filter holds and the format strings it renders them
 * with. Each filter subclass converts command-line tokens with its own
 * `_parse_value`: `int(s)` for IntFilter/IntIDFilter, `int(s, 16)` for
 * HexFilter/HexIDFilter, the token itself for StringFilter and
 * `date.fromisoformat` for DateFilter.
 */
module Values {
  import opened Wrappers
  import opened Digits
  import opened Dates

  datatype Value = Int(i: int) | Str(s: string) | Day(d: Date)

  /** Which subclass's `_parse_value` a filter uses. */
  datatype Kind = IntKind | HexKind | StringKind | DateKind

  function ParseValue(kind: Kind, token: string): (r: Result<Value>)
    ensures r.Ok? && kind == StringKind ==> r.value == Str(token)
    ensures r.Ok? && (kind == IntKind || kind == HexKind) ==> r.value.Int?
    ensures r.Ok? && kind == DateKind ==> r.value.Day? && ValidDate(r.value.d)
    ensures r.Fail? ==> r.error == ValueError && kind != StringKind
  {
    match kind
    case IntKind => (match ParseDecimal(token) case Some(n) => Ok(Int(n)) case None => Fail(ValueError))
    case HexKind => (match ParseHexadecimal(token) case Some(n) => Ok(Int(n)) case None => Fail(ValueError))
    case StringKind => Ok(Str(token))
    case DateKind => (match ParseFullDate(token) case Some(d) => Ok(Day(d)) case None => Fail(ValueError))
  }

  /** The replacement field of a Python format string: `{}`, `{:Nd}`, `{:0Nx}` or `{:%Y-%m-%d}`. */
  datatype Spec = Plain | Decimal(width: nat) | Hexadecimal(width: nat) | IsoDate

  /** A format string: literal text followed by one replacement field, e.g. `0x{:x}`. */
  datatype Format = Format(prefix: string, spec: Spec)

  const PlainFormat := Format("", Plain)            // '{}'
  const HexFilterDefault := Format("", Hexadecimal(0))     // '{:x}'
  const HexIdFilterDefault := Format("0x", Hexadecimal(0)) // '0x{:x}'
  const DateFilterDefault := Format("", IsoDate)    // '{:%Y-%m-%d}'

  /** The text of a numeric spec: `0<w>d` or `0<w>x`, or `d` or `x` without a width. */
  function NumericSpecText(spec: Spec): (t: string)
    requires spec.Decimal? || spec.Hexadecimal?
    ensures '%' !in t && |t| >= 1
    ensures t[|t| - 1] == (if spec.Decimal? then 'd' else 'x')
  {
    (if spec.width == 0 then "" else "0" + FormatInt(spec.width, 10, 0)) + (if spec.Decimal? then "d" else "x")
  }

  /**
   * `fmt.format(v)`. A spec that does not fit the value's type is the
   * ValueError Python raises ("Unknown format code"), except for a date:
   * `date.__format__` hands any non-empty spec to `strftime`, which copies
   * a spec without `%` directives as literal text.
   */
  function Render(f: Format, v: Value): (r: Result<string>)
    ensures r.Ok? ==> |r.value| >= |f.prefix| && r.value[..|f.prefix|] == f.prefix
    ensures r.Fail? <==> (v.Str? && !f.spec.Plain?) || (v.Int? && f.spec.IsoDate?)
    ensures r.Fail? ==> r.error == ValueError
    ensures v.Day? && (f.spec.Decimal? || f.spec.Hexadecimal?) ==> r == Ok(f.prefix + NumericSpecText(f.spec))
  {
    var body: Result<string> :=
      match (f.spec, v)
      case (Plain, Int(n)) => Ok(FormatInt(n, 10, 0))
      case (Plain, Str(s)) => Ok(s)
      case (Plain, Day(d)) => Ok(FormatDate(d))
      case (Decimal(w), Int(n)) => Ok(FormatInt(n, 10, w))
      case (Hexadecimal(w), Int(n)) => Ok(FormatInt(n, 16, w))
      case (Decimal(_), Day(_)) => Ok(NumericSpecText(f.spec))
      case (Hexadecimal(_), Day(_)) => Ok(NumericSpecText(f.spec))
      case (IsoDate, Day(d)) => Ok(FormatDate(d))
      case _ => Fail(ValueError);
    if body.Ok? then Ok(f.prefix + body.value) else Fail(ValueError)
  }

  /** Python's `<=` on two strings: code-point lexicographic order. */
  predicate StrLessEq(a: string, b: string) {
    a == [] || (b != [] && (a[0] < b[0] || (a[0] == b[0] && StrLessEq(a[1..], b[1..]))))
  }

  /** Python's `a <= b`; values of different types are not ordered (TypeError). */
  function LessEq(a: Value, b: Value): (r: Result<bool>)
    ensures r.Fail? <==> !SameType(a, b)
    ensures r.Fail? ==> r.error == TypeError
  {
    match (a, b)
    case (Int(x), Int(y)) => Ok(x <= y)
    case (Str(x), Str(y)) => Ok(StrLessEq(x, y))
    case (Day(x), Day(y)) => Ok(DateLessEq(x, y))
    case _ => Fail(TypeError)
  }

  predicate SameType(a: Value, b: Value) {
    (a.Int? && b.Int?) || (a.Str? && b.Str?) || (a.Day? && b.Day?)
  }

  /** The value kind a filter's `_parse_value` produces. */
  predicate OfKind(v: Value, kind: Kind) {
    match kind
    case IntKind => v.Int?
    case HexKind => v.Int?
    case StringKind => v.Str?
    case DateKind => v.Day? && ValidDate(v.d)
  }

  // ---------------------------------------------------------------------
  // Round trips between the formats and `_parse_value`

  /** `int(('{:0' + w + 'd}').format(n)) == n` for every integer. */
  lemma DecimalRoundTrip(n: int, w: nat)
    ensures Render(Format("", Decimal(w)), Int(n)).Ok?
    ensures ParseValue(IntKind, Render(Format("", Decimal(w)), Int(n)).value) == Ok(Int(n))
  {
    FormatParseRoundTrip(n, 10, w);
    assert "" + FormatInt(n, 10, w) == FormatInt(n, 10, w);
  }

  /** `int(('{:0' + w + 'x}').format(n), 16) == n` for every integer. */
  lemma HexRoundTrip(n: int, w: nat)
    ensures Render(Format("", Hexadecimal(w)), Int(n)).Ok?
    ensures ParseValue(HexKind, Render(Format("", Hexadecimal(w)), Int(n)).value) == Ok(Int(n))
  {
    FormatParseRoundTrip(n, 16, w);
    assert "" + FormatInt(n, 16, w) == FormatInt(n, 16, w);
  }

  /** The HexIDFilter default `0x{:x}` also re-parses, because `int(s, 16)` skips the `0x`. */
  lemma PrefixedHexRoundTrip(n: nat)
    ensures Render(HexIdFilterDefault, Int(n)).Ok?
    ensures ParseValue(HexKind, Render(HexIdFilterDefault, Int(n)).value) == Ok(Int(n))
  {
    var digits := FormatInt(n, 16, 0);
    FormatParseRoundTrip(n, 16, 0);
    assert digits == ToDigits(n, 16);
    PlainDigits(digits, 16);
    HexPrefixIgnored(digits, false);
  }

  /** A zero-padded decimal token reads as the same number as the unpadded one. */
  lemma ZeroPaddedTokens(k: nat, s: string)
    requires |s| > 0 && AllDigits(s, 10) && s[0] != '0'
    ensures ParseValue(IntKind, Zeros(k) + s) == ParseValue(IntKind, s)
  {
    LeadingZerosIgnored(k, s, 10);
  }

  /** Hex tokens compare numerically: padding and letter case do not matter. */
  lemma HexTokensNumeric(k: nat, s: string)
    requires |s| > 0 && AllDigits(s, 16) && s[0] != '0'
    ensures ParseValue(HexKind, Zeros(k) + s) == ParseValue(HexKind, s)
    ensures ParseValue(HexKind, s) == ParseValue(HexKind, Lower(s))
  {
    LeadingZerosIgnored(k, s, 16);
    HexCaseInsensitive(s);
  }

  lemma DateRoundTrip(d: Date)
    requires ValidDate(d)
    ensures Render(DateFilterDefault, Day(d)) == Ok(FormatDate(d))
    ensures ParseValue(DateKind, FormatDate(d)) == Ok(Day(d))
  {
    FormatThenParse(d);
    assert "" + FormatDate(d) == FormatDate(d);
  }
}
