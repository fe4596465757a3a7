/**
 * `SearchFilter` (data/searchfilter.py) and its subclasses IntFilter,
 * HexFilter, StringFilter and DateFilter, which differ only in how a token
 * becomes a value (`Kind`), in their default format and in the date
 * filter's range syntax and glob wildcard.
 */
module SearchFilters {
  import opened Wrappers
  import opened Values
  import opened Filters

  /** An element of a sequence handed to `_normalize_values`: a value or tuple, or a filter. */
  datatype Item = Item(e: Entry) | Nested(values: Option<seq<Entry>>)

  /** What `_normalize_values` can be given; a filter stands for its value list. */
  datatype Input =
    | NoInput                                  // None
    | FilterInput(values: Option<seq<Entry>>)  // a SearchFilter
    | TextInput(s: string)                     // a str
    | ListInput(items: seq<Item>)              // any other iterable, the positional tuple included
    | ScalarInput(v: Value)                    // anything else

  /**
   * The inputs whose normal form is a list of entries: a filter may appear
   * in a sequence only as its sole element. A list of two or more items
   * that holds a filter, which Python's `list(values)` keeps as it is, is
   * outside the model.
   */
  predicate Normalizable(input: Input) {
    input.ListInput? && |input.items| != 1 ==> forall i :: 0 <= i < |input.items| ==> input.items[i].Item?
  }

  function EntriesOf(items: seq<Item>): (es: seq<Entry>)
    requires forall i :: 0 <= i < |items| ==> items[i].Item?
    ensures |es| == |items| && forall i :: 0 <= i < |items| ==> es[i] == items[i].e
  {
    if items == [] then [] else [items[0].e] + EntriesOf(items[1..])
  }

  function ItemsOf(es: seq<Entry>): (items: seq<Item>)
    ensures |items| == |es| && forall i :: 0 <= i < |es| ==> items[i] == Item(es[i])
  {
    if es == [] then [] else [Item(es[0])] + ItemsOf(es[1..])
  }

  /** `_normalize_values`. */
  function Normalize(input: Input): (r: Option<seq<Entry>>)
    requires Normalizable(input)
    ensures input.NoInput? ==> r.None?
    ensures input.FilterInput? ==> r == input.values
    ensures input.TextInput? ==> r == Some([Scalar(Str(input.s))])
    ensures input.ScalarInput? ==> r == Some([Scalar(input.v)])
    ensures input.ListInput? && input.items == [] ==> r.None?
    ensures input.ListInput? && |input.items| == 1 && input.items[0].Nested? ==> r == input.items[0].values
    ensures input.ListInput? && (forall i :: 0 <= i < |input.items| ==> input.items[i].Item?) && input.items != [] ==>
      r.Some? && |r.value| == |input.items| && forall i :: 0 <= i < |input.items| ==> r.value[i] == input.items[i].e
  {
    match input
    case NoInput => None
    case FilterInput(values) => values
    case TextInput(s) => Some([Scalar(Str(s))])
    case ScalarInput(v) => Some([Scalar(v)])
    case ListInput(items) =>
      if |items| == 0 then None
      else if |items| == 1 && items[0].Nested? then items[0].values
      else Some(EntriesOf(items))
  }

  /** Normalising a normal form changes nothing, so the `values` setter is idempotent. */
  lemma NormalizeIdempotent(values: Option<seq<Entry>>)
    requires values.None? || values.value != []
    ensures Normalize(FilterInput(values)) == values
    ensures Normalize(if values.None? then NoInput else ListInput(ItemsOf(values.value))) == values
  {
    if values.Some? {
      var es := values.value;
      var r := Normalize(ListInput(ItemsOf(es)));
      assert r.value == es;
    }
  }

  /** The format a subclass fills in before calling the base constructor. */
  function KindDefault(kind: Kind): (f: Option<Format>)
    ensures f.Some? <==> kind == HexKind || kind == DateKind
  {
    match kind
    case HexKind => Some(HexFilterDefault)
    case DateKind => Some(DateFilterDefault)
    case _ => None
  }

  class SearchFilter {
    const kind: Kind
    var name: Option<string>
    var format: Format
    var values: Option<seq<Entry>>

    /** The text `get_glob_pattern` falls back to. */
    function Wildcard(): string {
      if kind == DateKind then DateWildcard else "*"
    }

    /**
     * `__init__(*values, name, format, orig)`. The values always come from
     * the positional arguments (an empty tuple gives None), never from
     * `orig`; name and format fall back to `orig`'s, after the subclass
     * default format has been filled in.
     */
    constructor (kind: Kind, positional: seq<Item>, name: Option<string>, format: Option<Format>, orig: SearchFilter?)
      requires Normalizable(ListInput(positional))
      ensures this.kind == kind
      ensures values == Normalize(ListInput(positional))
      ensures orig == null ==> this.name == name
      ensures orig != null ==> this.name == if name.Some? then name else orig.name
      ensures var given := if format.Some? then format else KindDefault(kind);
        this.format == if given.Some? then given.value else if orig == null then PlainFormat else orig.format
    {
      this.kind := kind;
      var given := if format.Some? then format else KindDefault(kind);
      if orig == null {
        this.name := name;
        this.format := if given.Some? then given.value else PlainFormat;
      } else {
        this.name := if name.Some? then name else orig.name;
        this.format := if given.Some? then given.value else orig.format;
      }
      this.values := Normalize(ListInput(positional));
    }

    /** The `values` setter. */
    method SetValues(input: Input)
      requires Normalizable(input)
      modifies this
      ensures values == Normalize(input)
      ensures name == old(name) && format == old(format)
    {
      values := Normalize(input);
    }

    /** The `value` property: the single scalar, None without values, ValueError otherwise. */
    function SingleValue(): (r: Result<Option<Value>>)
      reads this
      ensures r == Ok(None) <==> values.None?
      ensures r.Ok? && r.value.Some? <==> values.Some? && |values.value| == 1 && values.value[0].Scalar?
      ensures r.Ok? && r.value.Some? ==> values.value[0] == Scalar(r.value.value)
      ensures r.Fail? ==> r.error == ValueError
    {
      if values.None? then Ok(None)
      else if |values.value| == 1 && values.value[0].Scalar? then Ok(Some(values.value[0].v))
      else Fail(ValueError)
    }

    /**
     * `parse(arg)`: the value list is reset and one entry appended per
     * token; a token that fails to parse stops the loop and leaves the
     * entries appended so far.
     */
    method Parse(args: Option<seq<string>>) returns (failure: Option<Error>)
      modifies this
      ensures values == Some(ParseArgs(kind, args).entries)
      ensures failure == ParseArgs(kind, args).failure
      ensures name == old(name) && format == old(format)
    {
      values := Some([]);
      failure := None;
      if args.Some? {
        var p := ParseAll(kind, args.value);
        values := Some(p.entries);
        failure := p.failure;
      }
    }

    /** `match(arg)`. */
    method Match(probe: Probe) returns (r: Result<bool>)
      ensures r == MatchProbe(kind, values, probe)
    {
      var value := ProbeValue(kind, probe);
      if value.Fail? {
        return Fail(value.error);
      }
      if values.None? || |values.value| == 0 {
        return Ok(true);
      }
      r := MatchAll(values.value, value.value);
    }

    /** `get_glob_pattern()`; `Filters.GlobSound` states what it guarantees. */
    function Glob(): Result<string>
      reads this
    {
      GlobPattern(format, values, Wildcard())
    }

    /** `__str__()`. */
    method ToString() returns (r: Result<string>)
      ensures r == RenderFilter(format, values)
    {
      if values.None? {
        return Ok("");
      }
      r := RenderAll(format, values.value);
    }
  }
}
