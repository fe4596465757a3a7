/**
 * The older `IDFilter` family (util/idfilter.py, intidfilter.py,
 * hexidfilter.py). Unlike `SearchFilter` it starts without a value list,
 * so `match`, `get_glob_pattern` and `str` raise TypeError before the
 * first `parse`. `HexIDFilter(format, orig)` forwards its two arguments
 * positionally into `IDFilter(name, format)`: the format string becomes
 * the name and `orig` becomes the format.
 */
module IdFilters {
  import opened Wrappers
  import opened Values
  import opened Filters

  /** The format slot holds a format string, or a filter object that `HexIDFilter` put there. */
  datatype FormatSlot = FormatText(f: Format) | FilterObject

  /** The format text HexIDFilter uses when none is given (it ends up as the name). */
  const HexIdDefaultText := "0x{:x}"

  /** Rendering one value through the format slot; calling `.format` on a filter raises TypeError. */
  function RenderSlot(slot: FormatSlot, es: seq<Entry>): (r: Result<string>)
    ensures slot.FormatText? ==> r == RenderEntries(slot.f, es)
    ensures slot.FilterObject? ==> (r.Fail? <==> es != [])
    ensures slot.FilterObject? && r.Fail? ==> r.error == TypeError
  {
    match slot
    case FormatText(f) => RenderEntries(f, es)
    case FilterObject => if es == [] then Ok("") else Fail(TypeError)
  }

  class IdFilter {
    const kind: Kind
    var name: Option<string>
    var format: FormatSlot
    var values: Option<seq<Entry>>

    /** `IDFilter(name, format, orig)` and `IntIDFilter(...)`: values always start as None. */
    constructor (kind: Kind, name: Option<string>, format: Option<Format>, orig: IdFilter?)
      requires kind == IntKind || kind == HexKind
      ensures this.kind == kind && values.None?
      ensures orig == null ==> this.name == name && this.format == FormatText(if format.Some? then format.value else PlainFormat)
      ensures orig != null ==> this.name == (if name.Some? then name else orig.name)
      ensures orig != null ==> this.format == (if format.Some? then FormatText(format.value) else orig.format)
    {
      this.kind := kind;
      if orig == null {
        this.name := name;
        this.format := FormatText(if format.Some? then format.value else PlainFormat);
      } else {
        this.name := if name.Some? then name else orig.name;
        this.format := if format.Some? then FormatText(format.value) else orig.format;
      }
      this.values := None;
    }

    /**
     * `HexIDFilter(format, orig)`: the format text (default `0x{:x}`) lands in
     * the name, and the format is `orig` itself, or `{}` without one.
     */
    constructor Hex(formatText: Option<string>, orig: IdFilter?)
      ensures kind == HexKind && values.None?
      ensures name == Some(if formatText.Some? then formatText.value else HexIdDefaultText)
      ensures format == if orig == null then FormatText(PlainFormat) else FilterObject
    {
      kind := HexKind;
      name := Some(if formatText.Some? then formatText.value else HexIdDefaultText);
      format := if orig == null then FormatText(PlainFormat) else FilterObject;
      values := None;
    }

    /** `parse(arg)`: as `SearchFilter._parse`, without the date syntax. */
    method Parse(args: Option<seq<string>>) returns (failure: Option<Error>)
      modifies this
      ensures values == Some(ParseArgs(kind, args).entries)
      ensures failure == ParseArgs(kind, args).failure
      ensures name == old(name) && format == old(format)
    {
      values := Some([]);
      failure := None;
      if args.Some? {
        var p := ParseAll(kind, args.value);
        values := Some(p.entries);
        failure := p.failure;
      }
    }

    /** `match(arg)`: `len(None)` raises TypeError before the first parse. */
    method Match(probe: Probe) returns (r: Result<bool>)
      ensures ProbeValue(kind, probe).Ok? && values.None? ==> r == Fail(TypeError)
      ensures values.Some? ==> r == MatchProbe(kind, values, probe)
      ensures ProbeValue(kind, probe).Fail? ==> r.Fail?
    {
      var value := ProbeValue(kind, probe);
      if value.Fail? {
        return Fail(value.error);
      }
      if values.None? {
        return Fail(TypeError);
      }
      if |values.value| == 0 {
        return Ok(true);
      }
      r := MatchAll(values.value, value.value);
    }

    /** `get_glob_pattern()`. */
    function Glob(): (r: Result<string>)
      reads this
      ensures values.None? ==> r == Fail(TypeError)
      ensures values.Some? && format.FormatText? ==> r == GlobPattern(format.f, values, "*")
      ensures values.Some? && format.FilterObject? ==>
        r == if |values.value| == 1 && values.value[0].Scalar? then Fail(TypeError) else Ok("*")
    {
      if values.None? then Fail(TypeError)
      else match format
        case FormatText(f) => GlobPattern(f, values, "*")
        case FilterObject =>
          if |values.value| == 1 && values.value[0].Scalar? then Fail(TypeError) else Ok("*")
    }

    /** `__str__()`: iterating None raises TypeError. */
    method ToString() returns (r: Result<string>)
      ensures values.None? ==> r == Fail(TypeError)
      ensures values.Some? ==> r == RenderSlot(format, values.value)
    {
      if values.None? {
        return Fail(TypeError);
      }
      match format
      case FormatText(f) =>
        r := RenderAll(f, values.value);
      case FilterObject =>
        r := if values.value == [] then Ok("") else Fail(TypeError);
    }
  }

  /**
   * With default arguments `HexIDFilter` renders its single value with
   * `{}`, that is in decimal: the hex format it was given is only its name.
   */
  lemma HexIdDefaultGlobIsDecimal(n: nat)
    ensures GlobPattern(PlainFormat, Some([Scalar(Int(n))]), "*") == Ok(Digits.FormatInt(n, 10, 0))
    ensures n >= 10 ==> Digits.FormatInt(n, 10, 0) != Digits.FormatInt(n, 16, 0)
  {
    assert "" + Digits.FormatInt(n, 10, 0) == Digits.FormatInt(n, 10, 0);
    if n >= 10 {
      Digits.FormatParseRoundTrip(n, 10, 0);
      Digits.FormatParseRoundTrip(n, 16, 0);
      DecimalDigitsDiffer(n);
    }
  }

  /** For n >= 10 the decimal and hexadecimal digit strings differ. */
  lemma DecimalDigitsDiffer(n: nat)
    requires n >= 10
    ensures Digits.FormatInt(n, 10, 0) != Digits.FormatInt(n, 16, 0)
  {
    var d, h := Digits.ToDigits(n, 10), Digits.ToDigits(n, 16);
    assert Digits.FormatInt(n, 10, 0) == d && Digits.FormatInt(n, 16, 0) == h;
    if d == h {
      SameDigitsLarger(d);
      assert false;
    }
  }

  /** A decimal digit string read in base 16 is at least as large, and larger from 10 on. */
  lemma {:induction false} SameDigitsLarger(s: string)
    requires Digits.AllDigits(s, 10)
    ensures Digits.AllDigits(s, 16)
    ensures Digits.ValueOf(s, 16) >= Digits.ValueOf(s, 10)
    ensures Digits.ValueOf(s, 10) >= 10 ==> Digits.ValueOf(s, 16) > Digits.ValueOf(s, 10)
  {
    if s != [] {
      var p := s[..|s| - 1];
      var l := Digits.DigitValue(s[|s| - 1]);
      assert Digits.AllDigits(p, 10);
      SameDigitsLarger(p);
      var a, b := Digits.ValueOf(p, 16), Digits.ValueOf(p, 10);
      assert Digits.ValueOf(s, 16) == a * 16 + l;
      assert Digits.ValueOf(s, 10) == b * 10 + l;
      Digits.MulMono(b, a, 16);
      if b * 10 + l >= 10 {
        assert b >= 1;
      }
    }
  }
}
