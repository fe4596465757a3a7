/**
 * The filter algebra shared by `SearchFilter` (data/searchfilter.py and its
 * subclasses) and the older `IDFilter` (util/idfilter.py): command-line
 * tokens become scalar entries or inclusive `lo-hi` ranges, a value
 * matches when it equals a scalar or lies inside a range, and the entries
 * render back to text and to a glob pattern.
 */
module Filters {
  import opened Wrappers
  import opened Digits
  import opened Dates
  import opened Text
  import opened Values

  /** A scalar value, or the tuple `(lo, hi)` a ranged token becomes. */
  datatype Entry = Scalar(v: Value) | Range(lo: Value, hi: Value)

  /** The result of the parse loop: the entries appended so far and the error that stopped it. */
  datatype Parsed = Parsed(entries: seq<Entry>, failure: Option<Error>)

  /** `start, end = a.split('-')`: unpacking fails unless there is exactly one dash. */
  function SplitRange(token: string): (r: Result<(string, string)>)
    ensures r.Ok? <==> Count(token, '-') == 1
    ensures r.Fail? ==> r.error == ValueError
    ensures r.Ok? ==> r.value.0 + "-" + r.value.1 == token
    ensures r.Ok? ==> '-' !in r.value.0 && '-' !in r.value.1
  {
    var parts := Split(token, '-');
    SplitLength(token, '-');
    SplitPartsFree(token, '-');
    JoinSplit(token, '-');
    if |parts| == 2 then
      assert Join(parts, '-') == parts[0] + "-" + parts[1];
      Ok((parts[0], parts[1]))
    else Fail(ValueError)
  }

  function RangeOf(kind: Kind, start: string, end: string): (r: Result<Entry>)
    ensures r.Ok? <==> ParseValue(kind, start).Ok? && ParseValue(kind, end).Ok?
    ensures r.Ok? ==> r.value == Range(ParseValue(kind, start).value, ParseValue(kind, end).value)
  {
    match ParseValue(kind, start)
    case Fail(e) => Fail(e)
    case Ok(lo) =>
      match ParseValue(kind, end)
      case Fail(e) => Fail(e)
      case Ok(hi) => Ok(Range(lo, hi))
  }

  function ScalarOf(kind: Kind, token: string): (r: Result<Entry>)
    ensures r.Ok? <==> ParseValue(kind, token).Ok?
    ensures r.Ok? ==> r.value == Scalar(ParseValue(kind, token).value)
  {
    match ParseValue(kind, token)
    case Fail(e) => Fail(e)
    case Ok(v) => Ok(Scalar(v))
  }

  /**
   * One token of `_parse`. The date filter splits a token with exactly five
   * dashes after its third component and reads any other token as one date;
   * the other filters split a token containing a dash into two halves.
   */
  function ParseToken(kind: Kind, token: string): (r: Result<Entry>)
    ensures r.Ok? && kind != DateKind ==> (r.value.Range? <==> '-' in token)
    ensures r.Ok? && kind == DateKind ==> (r.value.Range? <==> Count(token, '-') == 5)
    ensures kind != DateKind && Count(token, '-') >= 2 ==> r == Fail(ValueError)
    ensures r.Ok? && r.value.Scalar? ==> OfKind(r.value.v, kind)
    ensures r.Ok? && r.value.Range? ==> OfKind(r.value.lo, kind) && OfKind(r.value.hi, kind)
  {
    if kind == DateKind then
      if Count(token, '-') == 5 then
        var parts := Split(token, '-');
        SplitLength(token, '-');
        RangeOf(kind, Join(parts[..3], '-'), Join(parts[3..], '-'))
      else ScalarOf(kind, token)
    else if '-' in token then
      match SplitRange(token)
      case Fail(e) => Fail(e)
      case Ok((start, end)) => RangeOf(kind, start, end)
    else ScalarOf(kind, token)
  }

  /**
   * The `_parse` loop over `arg`: the entries of the longest prefix of
   * tokens that parse, in token order, and the error of the first token
   * that does not.
   */
  function ParseTokens(kind: Kind, tokens: seq<string>): (p: Parsed)
    ensures |p.entries| <= |tokens|
    ensures p.failure.None? <==> |p.entries| == |tokens|
    ensures forall i :: 0 <= i < |p.entries| ==> ParseToken(kind, tokens[i]) == Ok(p.entries[i])
    ensures p.failure.Some? ==> ParseToken(kind, tokens[|p.entries|]) == Fail(p.failure.value)
  {
    if tokens == [] then Parsed([], None)
    else
      var prev := ParseTokens(kind, tokens[..|tokens| - 1]);
      if prev.failure.Some? then prev
      else
        var r := ParseToken(kind, tokens[|tokens| - 1]);
        if r.Ok? then Parsed(prev.entries + [r.value], None) else Parsed(prev.entries, Some(r.error))
  }

  /** `_parse(arg)`, where a None argument leaves an empty list. */
  function ParseArgs(kind: Kind, args: Option<seq<string>>): (p: Parsed)
    ensures args.None? ==> p == Parsed([], None)
    ensures args.Some? ==> |p.entries| <= |args.value|
  {
    match args
    case None => Parsed([], None)
    case Some(tokens) => ParseTokens(kind, tokens)
  }

  // ---------------------------------------------------------------------
  // Matching

  /** Whether one entry accepts `value` under Python's comparison operators. */
  predicate Covers(e: Entry, value: Value) {
    match e
    case Scalar(x) => x == value
    case Range(lo, hi) => LessEq(lo, value) == Ok(true) && LessEq(value, hi) == Ok(true)
  }

  /** A range can be compared with `value` without raising. */
  predicate Comparable(e: Entry, value: Value) {
    e.Range? ==> SameType(e.lo, value) && SameType(value, e.hi)
  }

  /**
   * The loop of `match`: `isinstance(v, tuple) and value >= v[0] and value <= v[1]`,
   * else `value == v`. Comparing values of different types raises TypeError,
   * and a tuple never equals a value.
   */
  function MatchEntries(es: seq<Entry>, value: Value): (r: Result<bool>)
    ensures r.Fail? ==> r.error == TypeError
  {
    if es == [] then Ok(false)
    else
      match es[0]
      case Scalar(x) => if value == x then Ok(true) else MatchEntries(es[1..], value)
      case Range(lo, hi) =>
        match LessEq(lo, value)
        case Fail(e) => Fail(e)
        case Ok(above) =>
          if !above then MatchEntries(es[1..], value)
          else
            match LessEq(value, hi)
            case Fail(e) => Fail(e)
            case Ok(below) => if below then Ok(true) else MatchEntries(es[1..], value)
  }

  /** With comparable entries, `match` is "some entry covers the value". */
  lemma {:induction false} MatchMeaning(es: seq<Entry>, value: Value)
    requires forall i :: 0 <= i < |es| ==> Comparable(es[i], value)
    ensures MatchEntries(es, value) == Ok(exists i :: 0 <= i < |es| && Covers(es[i], value))
  {
    if es != [] {
      MatchMeaning(es[1..], value);
      var found := exists i :: 0 <= i < |es| && Covers(es[i], value);
      if found && !Covers(es[0], value) {
        var i :| 0 <= i < |es| && Covers(es[i], value);
        assert es[1..][i - 1] == es[i];
      }
    }
  }

  /** A range written backwards (`lo > hi`) accepts nothing. */
  lemma InvertedRangeEmpty(lo: int, hi: int, value: Value)
    requires lo > hi
    ensures !Covers(Range(Int(lo), Int(hi)), value)
  {
  }

  /** What `match` is asked about: a string is converted with `_parse_value` first. */
  datatype Probe = Token(s: string) | Given(v: Value)

  function ProbeValue(kind: Kind, probe: Probe): (r: Result<Value>)
    ensures probe.Given? ==> r == Ok(probe.v)
    ensures probe.Token? ==> r == ParseValue(kind, probe.s)
  {
    match probe
    case Token(s) => ParseValue(kind, s)
    case Given(v) => Ok(v)
  }

  /** `match(arg)`: the probe is converted first, then an empty filter accepts everything. */
  function MatchProbe(kind: Kind, values: Option<seq<Entry>>, probe: Probe): (r: Result<bool>)
    ensures ProbeValue(kind, probe).Fail? ==> r.Fail?
    ensures ProbeValue(kind, probe).Ok? && (values.None? || values.value == []) ==> r == Ok(true)
  {
    match ProbeValue(kind, probe)
    case Fail(e) => Fail(e)
    case Ok(value) =>
      if values.None? || |values.value| == 0 then Ok(true)
      else MatchEntries(values.value, value)
  }

  // ---------------------------------------------------------------------
  // Rendering

  /** One entry of `__str__`: a tuple renders as `'{}-{}'` of its two ends. */
  function RenderEntry(f: Format, e: Entry): (r: Result<string>)
    ensures e.Scalar? ==> r == Render(f, e.v)
    ensures e.Range? && r.Ok? ==>
      Render(f, e.lo).Ok? && Render(f, e.hi).Ok? && r.value == Render(f, e.lo).value + "-" + Render(f, e.hi).value
  {
    match e
    case Scalar(v) => Render(f, v)
    case Range(lo, hi) =>
      match Render(f, lo)
      case Fail(err) => Fail(err)
      case Ok(a) =>
        match Render(f, hi)
        case Fail(err) => Fail(err)
        case Ok(b) => Ok(a + "-" + b)
  }

  /**
   * The accumulation loop of `__str__`: a space goes before an entry only
   * when the text so far is not empty, so an entry that renders empty adds
   * no separator.
   */
  function RenderEntries(f: Format, es: seq<Entry>): Result<string> {
    if es == [] then Ok("")
    else
      match RenderEntries(f, es[..|es| - 1])
      case Fail(err) => Fail(err)
      case Ok(r) =>
        match RenderEntry(f, es[|es| - 1])
        case Fail(err) => Fail(err)
        case Ok(s) => Ok((if r != "" then r + " " else r) + s)
  }

  /** The text each entry renders to, in order. */
  function Renderings(f: Format, es: seq<Entry>): Result<seq<string>> {
    if es == [] then Ok([])
    else
      match Renderings(f, es[..|es| - 1])
      case Fail(err) => Fail(err)
      case Ok(prefix) =>
        match RenderEntry(f, es[|es| - 1])
        case Fail(err) => Fail(err)
        case Ok(s) => Ok(prefix + [s])
  }

  /** The last turn of `Renderings`: the texts of all but the last entry, then the last entry's. */
  lemma RenderingsLast(f: Format, es: seq<Entry>, r: seq<string>)
    requires es != [] && Renderings(f, es) == Ok(r)
    ensures Renderings(f, es[..|es| - 1]).Ok? && RenderEntry(f, es[|es| - 1]).Ok?
    ensures r == Renderings(f, es[..|es| - 1]).value + [RenderEntry(f, es[|es| - 1]).value]
  {
  }

  /** The texts are the entries' renderings, one per entry, in order. */
  lemma {:induction false} RenderingsMeans(f: Format, es: seq<Entry>)
    ensures var r := Renderings(f, es);
      r.Ok? ==> |r.value| == |es| && forall i :: 0 <= i < |es| ==> RenderEntry(f, es[i]) == Ok(r.value[i])
  {
    if es != [] && Renderings(f, es).Ok? {
      var init := es[..|es| - 1];
      var r := Renderings(f, es).value;
      RenderingsLast(f, es, r);
      RenderingsMeans(f, init);
      var p := Renderings(f, init).value;
      var last := RenderEntry(f, es[|es| - 1]);
      assert r == p + [last.value];
      forall i | 0 <= i < |es|
        ensures RenderEntry(f, es[i]) == Ok(r[i])
      {
        if i < |init| {
          assert es[i] == init[i] && r[i] == p[i];
        }
      }
    }
  }

  predicate AllNonEmpty(parts: seq<string>) {
    forall i :: 0 <= i < |parts| ==> parts[i] != []
  }

  /** When no entry renders empty, `__str__` is the entries' texts joined by single spaces. */
  lemma {:induction false} RenderIsSpaceJoin(f: Format, es: seq<Entry>)
    requires Renderings(f, es).Ok? && AllNonEmpty(Renderings(f, es).value)
    ensures RenderEntries(f, es) == Ok(Join(Renderings(f, es).value, ' '))
  {
    if es != [] {
      var prefix := es[..|es| - 1];
      RenderingsMeans(f, es);
      var texts := Renderings(f, es).value;
      assert Renderings(f, prefix).Ok?;
      var ptexts := Renderings(f, prefix).value;
      var last := texts[|es| - 1];
      assert texts == ptexts + [last];
      assert RenderEntry(f, es[|es| - 1]) == Ok(last);
      assert AllNonEmpty(ptexts) by {
        forall i | 0 <= i < |ptexts| ensures ptexts[i] != [] {
          assert ptexts[i] == texts[i];
        }
      }
      RenderIsSpaceJoin(f, prefix);
      if |prefix| > 0 {
        JoinNonEmpty(ptexts, ' ');
        JoinAppend(ptexts, [last], ' ');
        assert RenderEntries(f, es) == Ok(Join(ptexts, ' ') + " " + last);
      } else {
        assert ptexts == [] && texts == [last];
        assert "" + last == last;
        assert RenderEntries(f, es) == Ok(last);
        assert Join(texts, ' ') == last;
      }
    }
  }

  lemma {:induction false} JoinNonEmpty(parts: seq<string>, c: char)
    requires |parts| >= 1 && parts[0] != []
    ensures Join(parts, c) != []
  {
    if |parts| > 1 {
      assert Join(parts, c) == parts[0] + [c] + Join(parts[1..], c);
    }
  }

  /** `__str__` of a filter: `''` when there are no values. */
  function RenderFilter(f: Format, values: Option<seq<Entry>>): (r: Result<string>)
    ensures values.None? ==> r == Ok("")
    ensures values.Some? ==> r == RenderEntries(f, values.value)
  {
    if values.None? then Ok("") else RenderEntries(f, values.value)
  }

  /**
   * `get_glob_pattern`: the formatted value when the filter holds exactly
   * one scalar, otherwise the wildcard (`*`, or `????-??-??` for dates).
   */
  function GlobPattern(f: Format, values: Option<seq<Entry>>, wildcard: string): (r: Result<string>)
    ensures (values.Some? && |values.value| == 1 && values.value[0].Scalar?) ==> r == Render(f, values.value[0].v)
    ensures !(values.Some? && |values.value| == 1 && values.value[0].Scalar?) ==> r == Ok(wildcard)
  {
    if values.Some? && |values.value| == 1 && values.value[0].Scalar? then Render(f, values.value[0].v)
    else Ok(wildcard)
  }

  /** The wildcard of `DateFilter.get_glob_pattern`. */
  const DateWildcard := "????-??-??"

  // ---------------------------------------------------------------------
  // Glob patterns, as the file search applies them to one path component

  /** `*` matches any run and `?` any one character, neither crossing a `/`. */
  predicate GlobMatch(p: string, t: string)
    decreases |p| + |t|
  {
    if p == [] then t == []
    else if p[0] == '*' then GlobMatch(p[1..], t) || (t != [] && t[0] != '/' && GlobMatch(p, t[1..]))
    else if p[0] == '?' then t != [] && t[0] != '/' && GlobMatch(p[1..], t[1..])
    else t != [] && t[0] == p[0] && GlobMatch(p[1..], t[1..])
  }

  predicate NoGlobMeta(t: string) {
    '*' !in t && '?' !in t && '[' !in t && '/' !in t
  }

  lemma {:induction false} GlobLiteral(t: string)
    requires NoGlobMeta(t)
    ensures GlobMatch(t, t)
  {
    if t != [] {
      assert NoGlobMeta(t[1..]) by {
        assert forall x :: x in t[1..] ==> x in t;
      }
      GlobLiteral(t[1..]);
    }
  }

  lemma {:induction false} GlobStar(t: string)
    requires '/' !in t
    ensures GlobMatch("*", t)
  {
    if t != [] {
      assert '/' !in t[1..] by {
        assert forall x :: x in t[1..] ==> x in t;
      }
      GlobStar(t[1..]);
    } else {
      assert GlobMatch("*"[1..], t);
    }
  }

  /** A pattern without `*` matches piecewise. */
  lemma {:induction false} GlobConcat(p1: string, t1: string, p2: string, t2: string)
    requires '*' !in p1 && GlobMatch(p1, t1) && GlobMatch(p2, t2)
    ensures GlobMatch(p1 + p2, t1 + t2)
  {
    if p1 == [] {
      assert p1 + p2 == p2 && t1 + t2 == t2;
    } else {
      assert '*' !in p1[1..] by { assert forall x :: x in p1[1..] ==> x in p1; }
      GlobConcat(p1[1..], t1[1..], p2, t2);
      assert (p1 + p2)[1..] == p1[1..] + p2;
      assert (t1 + t2)[1..] == t1[1..] + t2;
    }
  }

  /** Matches concatenate: a pattern and a text built from matching pieces match. */
  lemma {:induction false} GlobAppend(p1: string, t1: string, p2: string, t2: string)
    requires GlobMatch(p1, t1) && GlobMatch(p2, t2)
    ensures GlobMatch(p1 + p2, t1 + t2)
    decreases |p1| + |t1|
  {
    if p1 == [] {
      assert p1 + p2 == p2 && t1 + t2 == t2;
    } else {
      assert (p1 + p2)[0] == p1[0] && (p1 + p2)[1..] == p1[1..] + p2;
      if p1[0] == '*' && GlobMatch(p1[1..], t1) {
        GlobAppend(p1[1..], t1, p2, t2);
      } else {
        assert t1 != [] && (t1 + t2)[0] == t1[0] && (t1 + t2)[1..] == t1[1..] + t2;
        if p1[0] == '*' {
          GlobAppend(p1, t1[1..], p2, t2);
        } else {
          GlobAppend(p1[1..], t1[1..], p2, t2);
        }
      }
    }
  }

  function Questions(k: nat): (p: string)
    ensures |p| == k && '*' !in p
  {
    if k == 0 then [] else "?" + Questions(k - 1)
  }

  lemma {:induction false} QuestionsMatch(t: string)
    requires '/' !in t
    ensures GlobMatch(Questions(|t|), t)
  {
    if t != [] {
      assert '/' !in t[1..] by { assert forall x :: x in t[1..] ==> x in t; }
      QuestionsMatch(t[1..]);
    }
  }

  lemma GlobLiteralChar(c: char, p: string, t: string)
    requires c != '*' && c != '?' && GlobMatch(p, t)
    ensures GlobMatch([c] + p, [c] + t)
  {
    assert ([c] + p)[1..] == p && ([c] + t)[1..] == t;
  }

  /** `????-??-??` matches every date `'{:%Y-%m-%d}'` renders. */
  lemma DateGlob(d: Date)
    requires ValidDate(d)
    ensures GlobMatch(DateWildcard, FormatDate(d))
  {
    var y, m, dd := DateFields(d);
    DashedRight(y, m, dd);
    DateShapedGlob(y, m, dd);
    DateWildcardShape();
  }

  lemma DashedRight(y: string, m: string, dd: string)
    ensures y + "-" + m + "-" + dd == y + ("-" + (m + ("-" + dd)))
  {
  }

  lemma DateWildcardShape()
    ensures DateWildcard == Questions(4) + ("-" + (Questions(2) + ("-" + Questions(2))))
  {
    assert Questions(2) == "??" && Questions(4) == "????";
  }

  lemma DateShapedGlob(y: string, m: string, dd: string)
    requires |y| == 4 && |m| == 2 && |dd| == 2
    requires '/' !in y && '/' !in m && '/' !in dd
    ensures GlobMatch(Questions(4) + ("-" + (Questions(2) + ("-" + Questions(2)))), y + ("-" + (m + ("-" + dd))))
  {
    var q2, q4 := Questions(2), Questions(4);
    QuestionsMatch(y);
    QuestionsMatch(m);
    QuestionsMatch(dd);
    GlobLiteralChar('-', q2, dd);
    GlobConcat(q2, m, "-" + q2, "-" + dd);
    GlobLiteralChar('-', q2 + ("-" + q2), m + ("-" + dd));
    GlobConcat(q4, y, "-" + (q2 + ("-" + q2)), "-" + (m + ("-" + dd)));
  }

  predicate NoPunctuation(s: string) {
    '-' !in s && ' ' !in s && '/' !in s
  }

  /** The three digit fields of a rendered date. */
  lemma DateFields(d: Date) returns (y: string, m: string, dd: string)
    requires ValidDate(d)
    ensures FormatDate(d) == y + "-" + m + "-" + dd
    ensures |y| == 4 && |m| == 2 && |dd| == 2
    ensures NoPunctuation(y) && NoPunctuation(m) && NoPunctuation(dd)
  {
    y, m, dd := FormatInt(d.year, 10, 4), FormatInt(d.month, 10, 2), FormatInt(d.day, 10, 2);
    assert Pow(10, 2) == 100 && Pow(10, 4) == 10000;
    FieldRoundTrip(d.year, 4);
    FieldRoundTrip(d.month, 2);
    FieldRoundTrip(d.day, 2);
    DigitsFree(y, 10);
    DigitsFree(m, 10);
    DigitsFree(dd, 10);
  }

  /**
   * The glob a filter renders never loses a file the filter would accept:
   * whatever value it matches renders, under the filter's own format, to a
   * name component the glob pattern matches.
   */
  lemma GlobSound(kind: Kind, f: Format, values: Option<seq<Entry>>, v: Value, t: string)
    requires MatchProbe(kind, values, Given(v)) == Ok(true)
    requires Render(f, v) == Ok(t) && NoGlobMeta(t)
    requires kind == DateKind ==> f == DateFilterDefault && v.Day? && ValidDate(v.d)
    ensures GlobPattern(f, values, if kind == DateKind then DateWildcard else "*").Ok?
    ensures GlobMatch(GlobPattern(f, values, if kind == DateKind then DateWildcard else "*").value, t)
  {
    if values.Some? && |values.value| == 1 && values.value[0].Scalar? {
      var x := values.value[0].v;
      assert ProbeValue(kind, Given(v)) == Ok(v);
      assert MatchEntries(values.value, v) == Ok(true);
      assert values.value[1..] == [];
      assert MatchEntries(values.value[1..], v) == Ok(false);
      assert x == v;
      GlobLiteral(t);
    } else if kind == DateKind {
      assert t == "" + FormatDate(v.d);
      DateGlob(v.d);
    } else {
      GlobStar(t);
    }
  }

  // ---------------------------------------------------------------------
  // `__str__` and `_parse` are inverse

  /**
   * A value whose rendering reads back as itself and can sit inside a range
   * token: non-empty, no space, and no dash (dates: exactly their own two).
   */
  predicate ValueReparses(kind: Kind, f: Format, v: Value) {
    Render(f, v).Ok?
    && var t := Render(f, v).value;
    ParseValue(kind, t) == Ok(v) && t != [] && ' ' !in t
    && (if kind == DateKind then Count(t, '-') == 2 else '-' !in t)
  }

  predicate EntryReparses(kind: Kind, f: Format, e: Entry) {
    match e
    case Scalar(v) => ValueReparses(kind, f, v)
    case Range(lo, hi) => ValueReparses(kind, f, lo) && ValueReparses(kind, f, hi)
  }

  lemma EntryRoundTrip(kind: Kind, f: Format, e: Entry)
    requires EntryReparses(kind, f, e)
    ensures RenderEntry(f, e).Ok?
    ensures RenderEntry(f, e).value != [] && ' ' !in RenderEntry(f, e).value
    ensures ParseToken(kind, RenderEntry(f, e).value) == Ok(e)
  {
    if e.Range? {
      var a, b := Render(f, e.lo).value, Render(f, e.hi).value;
      assert RenderEntry(f, e).value == a + "-" + b;
      if kind == DateKind {
        DateRangeToken(a, b);
      } else {
        PlainRangeToken(a, b);
      }
    }
  }

  /** `lo-hi` with dash-free ends splits back into its ends. */
  lemma PlainRangeToken(a: string, b: string)
    requires '-' !in a && '-' !in b
    ensures '-' in a + "-" + b
    ensures SplitRange(a + "-" + b) == Ok((a, b))
  {
    var token := a + "-" + b;
    assert token == a + ['-'] + b;
    assert token[|a|] == '-';
    SplitAfterFree(a, b, '-');
    SplitNoSeparator(b, '-');
  }

  /** Two dates joined by a dash have five dashes and split back after the third. */
  lemma DateRangeToken(a: string, b: string)
    requires Count(a, '-') == 2 && Count(b, '-') == 2
    ensures Count(a + "-" + b, '-') == 5
    ensures |Split(a + "-" + b, '-')| == 6
    ensures Join(Split(a + "-" + b, '-')[..3], '-') == a
    ensures Join(Split(a + "-" + b, '-')[3..], '-') == b
  {
    var token := a + "-" + b;
    assert token == a + ['-'] + b;
    CountAppend(a + "-", b, '-');
    CountAppend(a, "-", '-');
    SplitAround(a, b, '-');
    SplitLength(a, '-');
    SplitLength(b, '-');
    var parts := Split(token, '-');
    assert parts[..3] == Split(a, '-');
    assert parts[3..] == Split(b, '-');
    JoinSplit(a, '-');
    JoinSplit(b, '-');
  }

  /** Rendering a filter with `str()` and parsing the space-separated tokens gives back its entries. */
  lemma {:induction false} StrParseRoundTrip(kind: Kind, f: Format, es: seq<Entry>)
    requires |es| >= 1
    requires forall i :: 0 <= i < |es| ==> EntryReparses(kind, f, es[i])
    ensures RenderEntries(f, es).Ok?
    ensures ParseTokens(kind, Split(RenderEntries(f, es).value, ' ')) == Parsed(es, None)
  {
    forall i | 0 <= i < |es|
      ensures RenderEntry(f, es[i]).Ok? && RenderEntry(f, es[i]).value != [] && ' ' !in RenderEntry(f, es[i]).value
      ensures ParseToken(kind, RenderEntry(f, es[i]).value) == Ok(es[i])
    {
      EntryRoundTrip(kind, f, es[i]);
    }
    RenderingsOk(f, es);
    RenderingsMeans(f, es);
    var texts := Renderings(f, es).value;
    RenderIsSpaceJoin(f, es);
    JoinThenSplit(texts, ' ');
    TokensParse(kind, es, texts);
  }

  lemma {:induction false} RenderingsOk(f: Format, es: seq<Entry>)
    requires forall i :: 0 <= i < |es| ==> RenderEntry(f, es[i]).Ok?
    ensures Renderings(f, es).Ok?
  {
    if es != [] {
      RenderingsOk(f, es[..|es| - 1]);
    }
  }

  lemma TokensParse(kind: Kind, es: seq<Entry>, tokens: seq<string>)
    requires |tokens| == |es|
    requires forall i :: 0 <= i < |es| ==> ParseToken(kind, tokens[i]) == Ok(es[i])
    ensures ParseTokens(kind, tokens) == Parsed(es, None)
  {
    var p := ParseTokens(kind, tokens);
    assert p.failure.None?;
    assert p.entries == es;
  }

  // The formats the filters use satisfy the round trip.

  lemma DecimalReparses(n: nat, w: nat)
    ensures ValueReparses(IntKind, Format("", Decimal(w)), Int(n))
  {
    DecimalRoundTrip(n, w);
    FormattedDigits(n, 10, w);
  }

  lemma HexReparses(n: nat, w: nat)
    ensures ValueReparses(HexKind, Format("", Hexadecimal(w)), Int(n))
  {
    HexRoundTrip(n, w);
    FormattedDigits(n, 16, w);
  }

  lemma PrefixedHexReparses(n: nat)
    ensures ValueReparses(HexKind, HexIdFilterDefault, Int(n))
  {
    PrefixedHexRoundTrip(n);
    FormattedDigits(n, 16, 0);
    assert Render(HexIdFilterDefault, Int(n)).value == "0x" + FormatInt(n, 16, 0);
  }

  lemma DateReparses(d: Date)
    requires ValidDate(d)
    ensures ValueReparses(DateKind, DateFilterDefault, Day(d))
  {
    DateRoundTrip(d);
    var y, m, dd := DateFields(d);
    DateDashes(y, m, dd);
    assert Render(DateFilterDefault, Day(d)).value == y + "-" + m + "-" + dd;
  }

  lemma DateDashes(y: string, m: string, dd: string)
    requires NoPunctuation(y) && NoPunctuation(m) && NoPunctuation(dd)
    ensures Count(y + "-" + m + "-" + dd, '-') == 2
    ensures ' ' !in y + "-" + m + "-" + dd
  {
    var a := y + "-";
    var b := a + m;
    var c := b + "-";
    CountAppend(y, "-", '-');
    CountAppend(a, m, '-');
    CountAppend(b, "-", '-');
    CountAppend(c, dd, '-');
    NoSpaceAppend(y, "-");
    NoSpaceAppend(a, m);
    NoSpaceAppend(b, "-");
    NoSpaceAppend(c, dd);
  }

  lemma NoSpaceAppend(a: string, b: string)
    requires ' ' !in a && ' ' !in b
    ensures ' ' !in a + b
  {
  }

  lemma StringReparses(s: string)
    requires s != [] && ' ' !in s && '-' !in s
    ensures ValueReparses(StringKind, PlainFormat, Str(s))
  {
    assert Render(PlainFormat, Str(s)).value == "" + s;
  }

  /** Digit strings hold no dash, space or slash. */
  lemma DigitsFree(s: string, base: nat)
    requires 2 <= base <= 16 && AllDigits(s, base)
    ensures NoPunctuation(s)
  {
  }

  lemma FormattedDigits(n: nat, base: nat, w: nat)
    requires base == 10 || base == 16
    ensures FormatInt(n, base, w) != [] && NoPunctuation(FormatInt(n, base, w))
  {
    ZeroPadDigits(ToDigits(n, base), w, base);
    DigitsFree(FormatInt(n, base, w), base);
  }

  // ---------------------------------------------------------------------
  // The loops of `_parse`, `match` and `__str__`, proved against the functions above

  /** A parse that has failed stays failed as tokens are added. */
  lemma {:induction false} ParseTokensStep(kind: Kind, tokens: seq<string>, i: nat)
    requires i < |tokens|
    ensures ParseTokens(kind, tokens[..i + 1]) ==
      var prev := ParseTokens(kind, tokens[..i]);
      if prev.failure.Some? then prev
      else match ParseToken(kind, tokens[i])
        case Ok(e) => Parsed(prev.entries + [e], None)
        case Fail(err) => Parsed(prev.entries, Some(err))
  {
    assert tokens[..i + 1][..i] == tokens[..i];
  }

  /** The first failing token decides the whole parse. */
  lemma FirstFailure(kind: Kind, tokens: seq<string>, i: nat, err: Error)
    requires i < |tokens|
    requires ParseTokens(kind, tokens[..i]).failure.None?
    requires ParseToken(kind, tokens[i]) == Fail(err)
    ensures ParseTokens(kind, tokens) == Parsed(ParseTokens(kind, tokens[..i]).entries, Some(err))
  {
    var prefix := ParseTokens(kind, tokens[..i]);
    var whole := ParseTokens(kind, tokens);
    assert forall j :: 0 <= j < i ==> ParseToken(kind, tokens[j]).Ok? by {
      forall j | 0 <= j < i ensures ParseToken(kind, tokens[j]).Ok? {
        assert tokens[..i][j] == tokens[j];
      }
    }
    assert |whole.entries| == i;
    assert whole.entries == prefix.entries by {
      forall j | 0 <= j < i ensures whole.entries[j] == prefix.entries[j] {
        assert tokens[..i][j] == tokens[j];
      }
    }
  }

  /** The parse loop: entries are appended one token at a time until a token fails. */
  method ParseAll(kind: Kind, tokens: seq<string>) returns (p: Parsed)
    ensures p == ParseTokens(kind, tokens)
  {
    var entries: seq<Entry> := [];
    var i := 0;
    while i < |tokens|
      invariant 0 <= i <= |tokens|
      invariant ParseTokens(kind, tokens[..i]) == Parsed(entries, None)
    {
      ParseTokensStep(kind, tokens, i);
      match ParseToken(kind, tokens[i])
      case Fail(err) =>
        FirstFailure(kind, tokens, i, err);
        return Parsed(entries, Some(err));
      case Ok(e) =>
        entries := entries + [e];
      i := i + 1;
    }
    assert tokens[..i] == tokens;
    return Parsed(entries, None);
  }

  /** The search loop of `match`, returning on the first entry that accepts the value. */
  method MatchAll(es: seq<Entry>, value: Value) returns (r: Result<bool>)
    ensures r == MatchEntries(es, value)
  {
    var i := 0;
    while i < |es|
      invariant 0 <= i <= |es|
      invariant MatchEntries(es[i..], value) == MatchEntries(es, value)
    {
      assert es[i..][1..] == es[i + 1..];
      var e := es[i];
      if e.Range? {
        var above := LessEq(e.lo, value);
        if above.Fail? {
          return Fail(above.error);
        }
        if above.value {
          var below := LessEq(value, e.hi);
          if below.Fail? {
            return Fail(below.error);
          }
          if below.value {
            return Ok(true);
          }
        }
      } else if value == e.v {
        return Ok(true);
      }
      i := i + 1;
    }
    return Ok(false);
  }

  /** The accumulation loop of `__str__`. */
  method RenderAll(f: Format, es: seq<Entry>) returns (r: Result<string>)
    ensures r == RenderEntries(f, es)
  {
    var text := "";
    var i := 0;
    while i < |es|
      invariant 0 <= i <= |es|
      invariant RenderEntries(f, es[..i]) == Ok(text)
    {
      assert es[..i + 1][..i] == es[..i];
      if text != "" {
        text := text + " ";
      }
      var piece := RenderEntry(f, es[i]);
      if piece.Fail? {
        RenderFailureSticks(f, es, i + 1);
        return Fail(piece.error);
      }
      text := text + piece.value;
      i := i + 1;
    }
    assert es[..i] == es;
    return Ok(text);
  }

  /** Once an entry fails to render, so does every longer prefix. */
  lemma {:induction false} RenderFailureSticks(f: Format, es: seq<Entry>, n: nat)
    requires 1 <= n <= |es|
    requires RenderEntries(f, es[..n - 1]).Ok? && RenderEntry(f, es[n - 1]).Fail?
    ensures RenderEntries(f, es) == Fail(RenderEntry(f, es[n - 1]).error)
    decreases |es| - n
  {
    if n < |es| {
      assert es[..n][..n - 1] == es[..n - 1];
      RenderFailureSticksFrom(f, es, n);
    } else {
      assert es[..n - 1] == es[..|es| - 1];
    }
  }

  lemma {:induction false} RenderFailureSticksFrom(f: Format, es: seq<Entry>, n: nat)
    requires 1 <= n <= |es|
    requires RenderEntries(f, es[..n]).Fail?
    ensures RenderEntries(f, es) == RenderEntries(f, es[..n])
    decreases |es| - n
  {
    if n < |es| {
      assert es[..n + 1][..n] == es[..n];
      RenderFailureSticksFrom(f, es, n + 1);
    } else {
      assert es[..n] == es;
    }
  }
}
