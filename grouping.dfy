/**
 * The `configure` script (scripts/configure.py). It globs the pfsSingle
 * files its ID filters allow, keeps the files whose identity passes the
 * filters, groups them by objId with each object's visits and files
 * sorted, and saves one pipeline configuration per object in ascending
 * objId order.
 *
 * Three defects of the script as written are modelled beside their
 * corrections, and the rest of the module follows the corrections: the
 * objId filter's construction passes `format` twice and raises TypeError;
 * the single `--tract` string is parsed character by character; and a
 * globbed name that the pfsSingle regex rejects raises AttributeError
 * instead of being skipped.
 */
module SingleGrouping {
  import opened Wrappers
  import opened Values
  import opened Filters
  import opened IdFilters
  import Discoveries
  import Locator
  import Sorting
  import Text
  import Digits
  import Identity

  // ---------------------------------------------------------------------
  // Construction

  /** The parameters of `HexIDFilter.__init__(self, format=None, orig=None)`, in order. */
  const HexIdParams: seq<string> := ["format", "orig"]

  /**
   * Python's binding of a call's arguments: the positional arguments fill
   * the first parameters, and every keyword must name a parameter they
   * left free. Too many positional arguments, an unknown keyword, or a
   * second value for a parameter raise TypeError.
   */
  function BindArguments(params: seq<string>, positional: nat, keywords: set<string>): (r: Option<Error>)
    ensures r.Some? ==> r.value == TypeError
  {
    if positional > |params| then Some(TypeError)
    else if exists k :: k in keywords && k !in params[positional..] then Some(TypeError)
    else None
  }

  /** With keywords only, binding fails exactly when a keyword is not declared. */
  lemma KeywordBinding(params: seq<string>, keywords: set<string>)
    ensures BindArguments(params, 0, keywords) == Discoveries.CallWithKeywords((set p | p in params), keywords)
  {
    assert params[0..] == params;
  }

  /**
   * `HexIDFilter('objid', format='{:016x}')`: the positional `'objid'`
   * binds `format`, and the keyword binds it a second time.
   */
  lemma ObjIdFilterRaises()
    ensures BindArguments(HexIdParams, 1, {"format"}) == Some(TypeError)
  {
    assert HexIdParams[1..] == ["orig"];
    assert "format" in {"format"} && "format" !in HexIdParams[1..];
  }

  const CatIdFormat := Format("", Decimal(5))      // '{:05d}'
  const TractFormat := Format("", Decimal(5))      // '{:05d}'
  const ObjIdFormat := Format("", Hexadecimal(16)) // '{:016x}'
  const VisitFormat := Format("", Decimal(6))      // '{:06d}'

  /** The command-line arguments the script reads. */
  datatype Args = Args(
    catId: Option<seq<string>>, tract: Option<string>, patch: Option<string>,
    objId: Option<seq<string>>, visit: Option<seq<string>>,
    workdir: Option<string>, datadir: Option<string>, rerundir: Option<string>, outdir: Option<string>)

  datatype Dirs = Dirs(workdir: Option<string>, datadir: Option<string>, rerundir: Option<string>, outdir: Option<string>)

  /** `_get_arg(name, args, default)`: a missing or empty argument defers to the default. */
  function GetArg(given: Option<string>, default: Option<string>): (r: Option<string>)
    ensures r == given || r == default
  {
    if given.Some? && given.value != "" then given else default
  }

  /** The directories: a command-line value overrides the configuration file's. */
  function DirsFrom(a: Args, config: Dirs): (d: Dirs)
    ensures a.datadir.Some? && a.datadir.value != "" ==> d.datadir == a.datadir
    ensures (a.datadir.None? || a.datadir.value == "") ==> d.datadir == config.datadir
    ensures a.rerundir.Some? && a.rerundir.value != "" ==> d.rerundir == a.rerundir
    ensures (a.rerundir.None? || a.rerundir.value == "") ==> d.rerundir == config.rerundir
  {
    Dirs(GetArg(a.workdir, config.workdir), GetArg(a.datadir, config.datadir),
      GetArg(a.rerundir, config.rerundir), GetArg(a.outdir, config.outdir))
  }

  /**
   * As written, `--tract` is one string (no `nargs`), and `parse` iterates
   * it: every character becomes a token of its own.
   */
  function TractTokensAsWritten(s: Option<string>): (r: Option<seq<string>>)
    ensures s.Some? ==> r.Some? && |r.value| == |s.value| && forall i :: 0 <= i < |s.value| ==> r.value[i] == [s.value[i]]
    ensures s.None? ==> r.None?
  {
    if s.None? then None else Some(seq(|s.value|, i requires 0 <= i < |s.value| => [s.value[i]]))
  }

  /** The evident intent: the tract string is one token. */
  function TractTokens(s: Option<string>): (r: Option<seq<string>>)
    ensures s.Some? ==> r == Some([s.value])
    ensures s.None? ==> r.None?
  {
    if s.None? then None else Some([s.value])
  }

  /**
   * `--tract 12` as written filters on tracts 1 and 2: tract 12 itself is
   * rejected, while the intended single token accepts it.
   */
  lemma TractCharactersMiss()
    ensures var es := ParseArgs(IntKind, TractTokensAsWritten(Some("12"))).entries;
      es == [Scalar(Int(1)), Scalar(Int(2))] && MatchProbe(IntKind, Some(es), Given(Int(12))) == Ok(false)
    ensures var es := ParseArgs(IntKind, TractTokens(Some("12"))).entries;
      es == [Scalar(Int(12))] && MatchProbe(IntKind, Some(es), Given(Int(12))) == Ok(true)
  {
    var chars := TractTokensAsWritten(Some("12")).value;
    assert chars == ["1", "2"];
    assert Digits.ValueOf("1", 10) == 1 && Digits.ValueOf("2", 10) == 2;
    assert Digits.ValueOf("12", 10) == 12 by {
      assert "12"[..1] == "1";
    }
    assert ParseToken(IntKind, "1") == Ok(Scalar(Int(1)));
    assert ParseToken(IntKind, "2") == Ok(Scalar(Int(2)));
    assert ParseToken(IntKind, "12") == Ok(Scalar(Int(12)));
    assert chars[..1] == ["1"];
    assert ["12"][..0] == [] && chars[..0] == [];
    var es := ParseArgs(IntKind, Some(chars)).entries;
    assert es[1..] == [Scalar(Int(2))];
    assert es[1..][1..] == [];
  }

  /** The filters after `_init_from_args`: parsed entries, and the patch string if one was given. */
  datatype Criteria = Criteria(catId: seq<Entry>, tract: seq<Entry>, patch: Option<string>, objId: seq<Entry>, visit: seq<Entry>)

  /**
   * `_init_from_args`: the four filters parse their arguments in the order
   * catId, tract, objId, visit (the patch is set between tract and objId);
   * the first token that fails to parse raises.
   */
  function ParsedCriteria(a: Args, patch0: Option<string>): (r: Result<Criteria>)
    ensures r.Ok? ==> r.value.patch == GetArg(a.patch, patch0)
    ensures r.Fail? ==> r.error == ValueError
  {
    var c := ParseArgs(IntKind, a.catId);
    if c.failure.Some? then Fail(c.failure.value) else
    var t := ParseArgs(IntKind, TractTokens(GetArg(a.tract, None)));
    if t.failure.Some? then Fail(t.failure.value) else
    var o := ParseArgs(HexKind, a.objId);
    if o.failure.Some? then Fail(o.failure.value) else
    var v := ParseArgs(IntKind, a.visit);
    if v.failure.Some? then Fail(v.failure.value) else
    Ok(Criteria(c.entries, t.entries, GetArg(a.patch, patch0), o.entries, v.entries))
  }

  /** A parse that succeeds keeps one entry per token of each argument, in token order. */
  lemma CriteriaEntries(a: Args, patch0: Option<string>)
    requires ParsedCriteria(a, patch0).Ok?
    ensures var c := ParsedCriteria(a, patch0).value;
      (a.catId.Some? ==> |c.catId| == |a.catId.value|) && (a.catId.None? ==> c.catId == []) &&
      (a.objId.Some? ==> |c.objId| == |a.objId.value|) && (a.objId.None? ==> c.objId == []) &&
      (a.visit.Some? ==> |c.visit| == |a.visit.value|) && (a.visit.None? ==> c.visit == [])
  {
  }

  // ---------------------------------------------------------------------
  // The glob pattern

  /** `get_glob_pattern()` of the filters, in the order catId, tract, patch, objId, visit; `*` for a missing patch. */
  function FieldGlobs(c: Criteria): (r: Result<seq<string>>)
    ensures r.Ok? ==> |r.value| == 5 && r.value[2] == (if c.patch.Some? then c.patch.value else "*")
    ensures r.Ok? ==> GlobPattern(CatIdFormat, Some(c.catId), "*") == Ok(r.value[0])
    ensures r.Ok? ==> GlobPattern(TractFormat, Some(c.tract), "*") == Ok(r.value[1])
    ensures r.Ok? ==> GlobPattern(ObjIdFormat, Some(c.objId), "*") == Ok(r.value[3])
    ensures r.Ok? ==> GlobPattern(VisitFormat, Some(c.visit), "*") == Ok(r.value[4])
  {
    var cat := GlobPattern(CatIdFormat, Some(c.catId), "*");
    var tract := GlobPattern(TractFormat, Some(c.tract), "*");
    var obj := GlobPattern(ObjIdFormat, Some(c.objId), "*");
    var visit := GlobPattern(VisitFormat, Some(c.visit), "*");
    if cat.Fail? then Fail(cat.error)
    else if tract.Fail? then Fail(tract.error)
    else if obj.Fail? then Fail(obj.error)
    else if visit.Fail? then Fail(visit.error)
    else Ok([cat.value, tract.value, if c.patch.Some? then c.patch.value else "*", obj.value, visit.value])
  }

  /** `PFSSINGLE_DIR_GLOB`: `pfsSingle/{catId}/{tract}/{patch}`. */
  function DirGlob(g: seq<string>): string
    requires |g| == 5
  {
    "pfsSingle/" + g[0] + "/" + g[1] + "/" + g[2]
  }

  /** `PFSSINGLE_FILENAME_GLOB`: `pfsSingle-{catId}-{tract}-{patch}-{objId}-{visit}.fits`. */
  function FileGlob(g: seq<string>): string
    requires |g| == 5
  {
    "pfsSingle-" + g[0] + "-" + g[1] + "-" + g[2] + "-" + g[3] + "-" + g[4] + ".fits"
  }

  /** `__get_pfsSingle_glob_pattern`: joining a directory that is None raises TypeError. */
  function SingleGlob(c: Criteria, d: Dirs): (r: Result<string>)
    ensures FieldGlobs(c).Ok? && d.datadir.Some? && d.rerundir.Some? ==>
      r == Ok(Locator.JoinPaths([d.datadir.value, d.rerundir.value, DirGlob(FieldGlobs(c).value), FileGlob(FieldGlobs(c).value)]))
    ensures FieldGlobs(c).Ok? && (d.datadir.None? || d.rerundir.None?) ==> r == Fail(TypeError)
    ensures FieldGlobs(c).Fail? ==> r.Fail?
  {
    var g := FieldGlobs(c);
    if g.Fail? then Fail(g.error)
    else if d.datadir.None? || d.rerundir.None? then Fail(TypeError)
    else Ok(Locator.JoinPaths([d.datadir.value, d.rerundir.value, DirGlob(g.value), FileGlob(g.value)]))
  }

  // ---------------------------------------------------------------------
  // One globbed path

  /** The identity a pfsSingle file name carries. */
  datatype Single = Single(catId: int, tract: int, patch: string, objId: int, visit: int)

  /** The five groups of the pfsSingle file-name regex: catId, tract, patch, objId, visit. */
  type Groups = (string, string, string, string, string)

  /** `os.path.basename(path)`: the text after the last `/`. */
  function Basename(path: string): (b: string)
    ensures '/' !in b
  {
    var parts := Text.Split(path, '/');
    Text.SplitPartsFree(path, '/');
    parts[|parts| - 1]
  }

  /** The filters' `parse_value` on the groups: decimal catId, tract and visit, hex objId. */
  function ParseSingle(g: Groups): (r: Result<Single>)
    ensures r.Ok? <==>
      ParseValue(IntKind, g.0).Ok? && ParseValue(IntKind, g.1).Ok? && ParseValue(HexKind, g.3).Ok? && ParseValue(IntKind, g.4).Ok?
    ensures r.Ok? ==>
      ParseValue(IntKind, g.0) == Ok(Int(r.value.catId)) && ParseValue(IntKind, g.1) == Ok(Int(r.value.tract)) &&
      r.value.patch == g.2 && ParseValue(HexKind, g.3) == Ok(Int(r.value.objId)) && ParseValue(IntKind, g.4) == Ok(Int(r.value.visit))
    ensures r.Fail? ==> r.error == ValueError
  {
    var c := ParseValue(IntKind, g.0);
    var t := ParseValue(IntKind, g.1);
    var o := ParseValue(HexKind, g.3);
    var v := ParseValue(IntKind, g.4);
    if c.Fail? then Fail(c.error)
    else if t.Fail? then Fail(t.error)
    else if o.Fail? then Fail(o.error)
    else if v.Fail? then Fail(v.error)
    else Ok(Single(c.value.i, t.value.i, g.2, o.value.i, v.value.i))
  }

  /** The condition of `__get_pfsSingle_targets`, evaluated left to right. */
  function Selects(c: Criteria, s: Single): (r: Result<bool>)
  {
    var m1 := MatchProbe(IntKind, Some(c.catId), Given(Int(s.catId)));
    if m1.Fail? || !m1.value then m1 else
    var m2 := MatchProbe(IntKind, Some(c.tract), Given(Int(s.tract)));
    if m2.Fail? || !m2.value then m2 else
    if c.patch.Some? && c.patch.value != s.patch then Ok(false) else
    var m4 := MatchProbe(HexKind, Some(c.objId), Given(Int(s.objId)));
    if m4.Fail? || !m4.value then m4 else
    MatchProbe(IntKind, Some(c.visit), Given(Int(s.visit)))
  }

  /** A file is selected iff all four filters match and the patch equals the given one, if any. */
  lemma SelectsMeaning(c: Criteria, s: Single)
    ensures Selects(c, s) == Ok(true) <==>
      MatchProbe(IntKind, Some(c.catId), Given(Int(s.catId))) == Ok(true) &&
      MatchProbe(IntKind, Some(c.tract), Given(Int(s.tract))) == Ok(true) &&
      (c.patch.None? || c.patch.value == s.patch) &&
      MatchProbe(HexKind, Some(c.objId), Given(Int(s.objId))) == Ok(true) &&
      MatchProbe(IntKind, Some(c.visit), Given(Int(s.visit))) == Ok(true)
  {
  }

  /** The identity of a path that is kept, None for one that is skipped. */
  function Outcome(c: Criteria, parse: string -> Option<Groups>, path: string): Result<Option<Single>> {
    var g := parse(Basename(path));
    if g.None? then Ok(None)
    else
      var s := ParseSingle(g.value);
      if s.Fail? then Fail(s.error)
      else
        var m := Selects(c, s.value);
        if m.Fail? then Fail(m.error) else if m.value then Ok(Some(s.value)) else Ok(None)
  }

  /** As written: `match.group(1)` runs before the `match is not None` test. */
  function OutcomeAsWritten(c: Criteria, parse: string -> Option<Groups>, path: string): Result<Option<Single>> {
    var g := parse(Basename(path));
    if g.None? then Fail(AttributeError) else Outcome(c, parse, path)
  }

  /**
   * A name the regex rejects stops the script as written, where the
   * evident intent (the later None test) is to skip it; on every other
   * name the two agree.
   */
  lemma ForeignNameRaises(c: Criteria, parse: string -> Option<Groups>, path: string)
    ensures parse(Basename(path)).None? ==>
      OutcomeAsWritten(c, parse, path) == Fail(AttributeError) && Outcome(c, parse, path) == Ok(None)
    ensures parse(Basename(path)).Some? ==> OutcomeAsWritten(c, parse, path) == Outcome(c, parse, path)
  {
  }

  /** A path is kept iff its name parses and its identity passes the filters. */
  lemma OutcomeMeaning(c: Criteria, parse: string -> Option<Groups>, path: string, s: Single)
    ensures Outcome(c, parse, path) == Ok(Some(s)) <==>
      parse(Basename(path)).Some? && ParseSingle(parse(Basename(path)).value) == Ok(s) && Selects(c, s) == Ok(true)
  {
  }

  // ---------------------------------------------------------------------
  // Grouping

  /** A kept file and the identity its name carries. */
  datatype Hit = Hit(single: Single, path: string)

  /** The loop over the globbed paths: the kept files in glob order, or the first error. */
  function Scan(c: Criteria, parse: string -> Option<Groups>, paths: seq<string>): (r: Result<seq<Hit>>)
    decreases |paths|
  {
    if paths == [] then Ok([])
    else
      var prev := Scan(c, parse, paths[..|paths| - 1]);
      if prev.Fail? then prev
      else
        match Outcome(c, parse, paths[|paths| - 1])
        case Fail(e) => Fail(e)
        case Ok(None) => prev
        case Ok(Some(s)) => Ok(prev.value + [Hit(s, paths[|paths| - 1])])
  }

  /** One object: the catId, tract and patch of its first file, and its visits and files. */
  datatype Target = Target(catId: int, tract: int, patch: string, objId: int, visits: seq<int>, files: seq<string>)

  /** The `targets` dictionary: its keys in insertion order, and the entries. */
  datatype Targets = Targets(order: seq<int>, byId: map<int, Target>)

  /** The dictionary the loop builds from the kept files, before sorting. */
  function Group(h: seq<Hit>): Targets
    decreases |h|
  {
    if h == [] then Targets([], map[])
    else
      var g := Group(h[..|h| - 1]);
      var x := h[|h| - 1];
      var o := x.single.objId;
      if o in g.byId then
        Targets(g.order, g.byId[o := g.byId[o].(visits := g.byId[o].visits + [x.single.visit], files := g.byId[o].files + [x.path])])
      else
        Targets(g.order + [o], g.byId[o := Target(x.single.catId, x.single.tract, x.single.patch, o, [x.single.visit], [x.path])])
  }

  /** `obj.visits.sort()` and `obj.files.sort()`. */
  function SortTarget(t: Target): (r: Target)
    ensures Sorting.Ascending(r.visits) && multiset(r.visits) == multiset(t.visits)
    ensures Sorting.StrAscending(r.files) && multiset(r.files) == multiset(t.files)
    ensures r.catId == t.catId && r.tract == t.tract && r.patch == t.patch && r.objId == t.objId
  {
    t.(visits := Sorting.Sort(t.visits), files := Sorting.SortStrings(t.files))
  }

  function SortTargets(m: map<int, Target>): (r: map<int, Target>)
    ensures r.Keys == m.Keys
  {
    map o | o in m :: SortTarget(m[o])
  }

  /** `__get_pfsSingle_targets` after the paths are globbed. */
  function GroupTargets(c: Criteria, parse: string -> Option<Groups>, paths: seq<string>): Result<Targets> {
    match Scan(c, parse, paths)
    case Fail(e) => Fail(e)
    case Ok(h) =>
      var g := Group(h);
      Ok(Targets(g.order, SortTargets(g.byId)))
  }

  /** `__get_pfsSingle_targets`. */
  function PfsSingleTargets(c: Criteria, d: Dirs, glob: string -> seq<string>, parse: string -> Option<Groups>): Result<Targets> {
    var pattern := SingleGlob(c, d);
    if pattern.Fail? then Fail(pattern.error) else GroupTargets(c, parse, glob(pattern.value))
  }

  /** The kept files of one object, in glob order. */
  function HitsFor(h: seq<Hit>, o: int): (r: seq<Hit>)
    ensures forall x :: x in r <==> x in h && x.single.objId == o
    decreases |h|
  {
    if h == [] then []
    else
      var prev := HitsFor(h[..|h| - 1], o);
      assert h == h[..|h| - 1] + [h[|h| - 1]];
      if h[|h| - 1].single.objId == o then prev + [h[|h| - 1]] else prev
  }

  function VisitsOf(h: seq<Hit>): (vs: seq<int>)
    ensures |vs| == |h| && forall i :: 0 <= i < |h| ==> vs[i] == h[i].single.visit
  {
    seq(|h|, i requires 0 <= i < |h| => h[i].single.visit)
  }

  function PathsOf(h: seq<Hit>): (ps: seq<string>)
    ensures |ps| == |h| && forall i :: 0 <= i < |h| ==> ps[i] == h[i].path
  {
    seq(|h|, i requires 0 <= i < |h| => h[i].path)
  }

  predicate Distinct(s: seq<int>) {
    forall i, j :: 0 <= i < j < |s| ==> s[i] != s[j]
  }

  /** The insertion order lists every key once. */
  lemma {:induction false} GroupKeys(h: seq<Hit>)
    ensures Distinct(Group(h).order)
    ensures forall o :: o in Group(h).byId <==> o in Group(h).order
    ensures forall o :: o in Group(h).byId <==> HitsFor(h, o) != []
    decreases |h|
  {
    if h != [] {
      var init := h[..|h| - 1];
      GroupKeys(init);
      var o := h[|h| - 1].single.objId;
      forall p
        ensures p in Group(h).byId <==> HitsFor(h, p) != []
      {
        if p != o {
          assert HitsFor(h, p) == HitsFor(init, p);
        }
      }
    }
  }

  /**
   * Each object holds its kept files and their visits in glob order, and
   * the catId, tract and patch of the first of them.
   */
  lemma {:induction false} GroupContents(h: seq<Hit>, o: int)
    requires o in Group(h).byId
    ensures var t, hs := Group(h).byId[o], HitsFor(h, o);
      hs != [] && t.objId == o &&
      t.catId == hs[0].single.catId && t.tract == hs[0].single.tract && t.patch == hs[0].single.patch &&
      t.visits == VisitsOf(hs) && t.files == PathsOf(hs)
    decreases |h|
  {
    var init := h[..|h| - 1];
    var x := h[|h| - 1];
    GroupKeys(init);
    if x.single.objId != o {
      GroupContents(init, o);
    } else if o in Group(init).byId {
      GroupContents(init, o);
    } else {
      assert HitsFor(init, o) == [];
    }
  }

  /** The kept files are exactly the paths whose outcome names an identity. */
  lemma {:induction false} ScanMembers(c: Criteria, parse: string -> Option<Groups>, paths: seq<string>)
    requires Scan(c, parse, paths).Ok?
    ensures forall x :: x in Scan(c, parse, paths).value <==>
      exists i :: 0 <= i < |paths| && paths[i] == x.path && Outcome(c, parse, paths[i]) == Ok(Some(x.single))
  {
    forall x
      ensures x in Scan(c, parse, paths).value <==>
        exists i :: 0 <= i < |paths| && paths[i] == x.path && Outcome(c, parse, paths[i]) == Ok(Some(x.single))
    {
      ScanMember(c, parse, paths, x);
    }
  }

  /** Some path of `paths` gives the hit `x`. */
  predicate Listed(c: Criteria, parse: string -> Option<Groups>, paths: seq<string>, x: Hit) {
    exists i :: 0 <= i < |paths| && paths[i] == x.path && Outcome(c, parse, paths[i]) == Ok(Some(x.single))
  }

  lemma ListedStep(c: Criteria, parse: string -> Option<Groups>, paths: seq<string>, x: Hit)
    requires paths != []
    ensures var n := |paths| - 1;
      Listed(c, parse, paths, x) <==>
        Listed(c, parse, paths[..n], x) || (paths[n] == x.path && Outcome(c, parse, paths[n]) == Ok(Some(x.single)))
  {
    var n := |paths| - 1;
    if Listed(c, parse, paths, x) {
      var i :| 0 <= i < |paths| && paths[i] == x.path && Outcome(c, parse, paths[i]) == Ok(Some(x.single));
      if i < n {
        assert paths[..n][i] == paths[i];
      }
    }
    if Listed(c, parse, paths[..n], x) {
      var i :| 0 <= i < n && paths[..n][i] == x.path && Outcome(c, parse, paths[..n][i]) == Ok(Some(x.single));
      assert paths[i] == paths[..n][i];
    }
  }

  lemma {:induction false} ScanMember(c: Criteria, parse: string -> Option<Groups>, paths: seq<string>, x: Hit)
    requires Scan(c, parse, paths).Ok?
    ensures x in Scan(c, parse, paths).value <==> Listed(c, parse, paths, x)
    decreases |paths|
  {
    if paths != [] {
      var n := |paths| - 1;
      ScanMember(c, parse, paths[..n], x);
      ListedStep(c, parse, paths, x);
    }
  }

  /** A failure in a prefix of the paths is the failure of the whole loop. */
  lemma {:induction false} ScanFailureSticks(c: Criteria, parse: string -> Option<Groups>, paths: seq<string>, n: nat)
    requires n <= |paths| && Scan(c, parse, paths[..n]).Fail?
    ensures Scan(c, parse, paths) == Scan(c, parse, paths[..n])
    decreases |paths| - n
  {
    if n < |paths| {
      assert paths[..n + 1][..n] == paths[..n];
      ScanFailureSticks(c, parse, paths, n + 1);
    } else {
      assert paths[..n] == paths;
    }
  }

  /** A path is kept under objId `o`. */
  predicate KeptAs(c: Criteria, parse: string -> Option<Groups>, path: string, o: int) {
    var r := Outcome(c, parse, path);
    r.Ok? && r.value.Some? && r.value.value.objId == o
  }

  /**
   * Every object of the result holds the visits of the files kept under
   * its objId, sorted, duplicates included, and the catId, tract and patch
   * of the first of them.
   */
  lemma TargetVisits(c: Criteria, parse: string -> Option<Groups>, paths: seq<string>, o: int)
    requires GroupTargets(c, parse, paths).Ok? && o in GroupTargets(c, parse, paths).value.byId
    ensures var t := GroupTargets(c, parse, paths).value.byId[o];
      var hs := HitsFor(Scan(c, parse, paths).value, o);
      t.objId == o && Sorting.Ascending(t.visits) && multiset(t.visits) == multiset(VisitsOf(hs)) &&
      hs != [] && t.catId == hs[0].single.catId && t.tract == hs[0].single.tract && t.patch == hs[0].single.patch
  {
    var h := Scan(c, parse, paths).value;
    GroupContents(h, o);
    assert GroupTargets(c, parse, paths).value.byId[o] == SortTarget(Group(h).byId[o]);
  }

  /** Every object of the result holds exactly the files kept under its objId, sorted, duplicates included. */
  lemma TargetFiles(c: Criteria, parse: string -> Option<Groups>, paths: seq<string>, o: int)
    requires GroupTargets(c, parse, paths).Ok? && o in GroupTargets(c, parse, paths).value.byId
    ensures var t := GroupTargets(c, parse, paths).value.byId[o];
      Sorting.StrAscending(t.files) && multiset(t.files) == multiset(PathsOf(HitsFor(Scan(c, parse, paths).value, o))) &&
      forall f :: f in t.files <==> exists i :: 0 <= i < |paths| && paths[i] == f && KeptAs(c, parse, paths[i], o)
  {
    var h := Scan(c, parse, paths).value;
    GroupContents(h, o);
    var t := GroupTargets(c, parse, paths).value.byId[o];
    assert t == SortTarget(Group(h).byId[o]);
    forall f
      ensures f in t.files <==> exists i :: 0 <= i < |paths| && paths[i] == f && KeptAs(c, parse, paths[i], o)
    {
      assert f in t.files <==> f in multiset(PathsOf(HitsFor(h, o)));
      KeptPaths(c, parse, paths, o, f);
    }
  }

  /** A path of an object's kept files is a path kept under its objId, and back. */
  lemma KeptPaths(c: Criteria, parse: string -> Option<Groups>, paths: seq<string>, o: int, f: string)
    requires Scan(c, parse, paths).Ok?
    ensures f in PathsOf(HitsFor(Scan(c, parse, paths).value, o)) <==>
      exists i :: 0 <= i < |paths| && paths[i] == f && KeptAs(c, parse, paths[i], o)
  {
    var h := Scan(c, parse, paths).value;
    var hs := HitsFor(h, o);
    ScanMembers(c, parse, paths);
    if f in PathsOf(hs) {
      var k :| 0 <= k < |hs| && PathsOf(hs)[k] == f;
      assert hs[k] in h;
    }
    if exists i :: 0 <= i < |paths| && paths[i] == f && KeptAs(c, parse, paths[i], o) {
      var i :| 0 <= i < |paths| && paths[i] == f && KeptAs(c, parse, paths[i], o);
      var x := Hit(Outcome(c, parse, paths[i]).value.value, f);
      assert x in h;
      assert x in hs;
      var k :| 0 <= k < |hs| && hs[k] == x;
      assert PathsOf(hs)[k] == f;
    }
  }

  /** The keys of the result are exactly the objIds of the kept files, each listed once in insertion order. */
  lemma TargetKeys(c: Criteria, parse: string -> Option<Groups>, paths: seq<string>, o: int)
    requires GroupTargets(c, parse, paths).Ok?
    ensures Distinct(GroupTargets(c, parse, paths).value.order)
    ensures o in GroupTargets(c, parse, paths).value.byId <==> o in GroupTargets(c, parse, paths).value.order
    ensures o in GroupTargets(c, parse, paths).value.byId <==>
      exists i :: 0 <= i < |paths| && KeptAs(c, parse, paths[i], o)
  {
    GroupKeys(Scan(c, parse, paths).value);
    HitsKept(c, parse, paths, o);
  }

  /** Some file was kept under `o` exactly when the scan holds a hit for `o`. */
  lemma HitsKept(c: Criteria, parse: string -> Option<Groups>, paths: seq<string>, o: int)
    requires Scan(c, parse, paths).Ok?
    ensures HitsFor(Scan(c, parse, paths).value, o) != [] <==> exists i :: 0 <= i < |paths| && KeptAs(c, parse, paths[i], o)
  {
    var h := Scan(c, parse, paths).value;
    ScanMembers(c, parse, paths);
    if HitsFor(h, o) != [] {
      assert HitsFor(h, o)[0] in h;
    }
    if exists i :: 0 <= i < |paths| && KeptAs(c, parse, paths[i], o) {
      var i :| 0 <= i < |paths| && KeptAs(c, parse, paths[i], o);
      var x := Hit(Outcome(c, parse, paths[i]).value.value, paths[i]);
      assert x in h;
      assert x in HitsFor(h, o);
    }
  }

  // ---------------------------------------------------------------------
  // The glob never loses a file the filters keep

  /** A name rendered by the pfsSingle grammar. */
  function CanonicalName(s: Single): string
    requires s.catId >= 0 && s.tract >= 0 && s.objId >= 0 && s.visit >= 0
  {
    "pfsSingle-" + Digits.FormatInt(s.catId, 10, 5) + "-" + Digits.FormatInt(s.tract, 10, 5) + "-" + s.patch +
    "-" + Digits.FormatInt(s.objId, 16, 16) + "-" + Digits.FormatInt(s.visit, 10, 6) + ".fits"
  }

  lemma FormattedNoMeta(n: nat, base: nat, w: nat)
    requires base == 10 || base == 16
    ensures NoGlobMeta(Digits.FormatInt(n, base, w))
  {
    Digits.ZeroPadDigits(Digits.ToDigits(n, base), w, base);
    var t := Digits.FormatInt(n, base, w);
    assert forall i :: 0 <= i < |t| ==> Digits.IsDigitIn(t[i], base);
  }

  /** One field of the name matches its glob. */
  lemma FieldGlob(kind: Kind, f: Format, es: seq<Entry>, n: nat, base: nat, w: nat)
    requires kind == IntKind || kind == HexKind
    requires f == Format("", if base == 10 then Decimal(w) else Hexadecimal(w)) && (base == 10 || base == 16)
    requires MatchProbe(kind, Some(es), Given(Int(n))) == Ok(true)
    ensures GlobPattern(f, Some(es), "*").Ok?
    ensures GlobMatch(GlobPattern(f, Some(es), "*").value, Digits.FormatInt(n, base, w))
  {
    FormattedNoMeta(n, base, w);
    RendersFormatted(f, n, base, w);
    GlobSound(kind, f, Some(es), Int(n), Digits.FormatInt(n, base, w));
  }

  /** A number field with no prefix renders as the zero-padded digits. */
  lemma RendersFormatted(f: Format, n: nat, base: nat, w: nat)
    requires f == Format("", if base == 10 then Decimal(w) else Hexadecimal(w)) && (base == 10 || base == 16)
    ensures Render(f, Int(n)) == Ok(Digits.FormatInt(n, base, w))
  {
    assert "" + Digits.FormatInt(n, base, w) == Digits.FormatInt(n, base, w);
  }

  lemma GlobDash(p: string, t: string, g: string, x: string)
    requires GlobMatch(p, t) && GlobMatch(g, x)
    ensures GlobMatch(p + "-" + g, t + "-" + x)
  {
    GlobLiteral("-");
    GlobAppend(p, t, "-", "-");
    GlobAppend(p + "-", t + "-", g, x);
  }

  /**
   * Every file the filters keep is found by the file-name glob: its
   * canonical name matches the pattern the filters render.
   */
  lemma GlobKeepsSelected(c: Criteria, s: Single)
    requires Selects(c, s) == Ok(true) && FieldGlobs(c).Ok?
    requires s.catId >= 0 && s.tract >= 0 && s.objId >= 0 && s.visit >= 0 && NoGlobMeta(s.patch)
    ensures GlobMatch(FileGlob(FieldGlobs(c).value), CanonicalName(s))
  {
    SelectsMeaning(c, s);
    var g := FieldGlobs(c).value;
    FieldGlob(IntKind, CatIdFormat, c.catId, s.catId, 10, 5);
    FieldGlob(IntKind, TractFormat, c.tract, s.tract, 10, 5);
    FieldGlob(HexKind, ObjIdFormat, c.objId, s.objId, 16, 16);
    FieldGlob(IntKind, VisitFormat, c.visit, s.visit, 10, 6);
    if c.patch.Some? {
      GlobLiteral(s.patch);
    } else {
      GlobStar(s.patch);
    }
    GlobNameChain(g, s);
  }

  lemma GlobNameChain(g: seq<string>, s: Single)
    requires |g| == 5 && s.catId >= 0 && s.tract >= 0 && s.objId >= 0 && s.visit >= 0
    requires GlobMatch(g[0], Digits.FormatInt(s.catId, 10, 5)) && GlobMatch(g[1], Digits.FormatInt(s.tract, 10, 5))
    requires GlobMatch(g[2], s.patch)
    requires GlobMatch(g[3], Digits.FormatInt(s.objId, 16, 16)) && GlobMatch(g[4], Digits.FormatInt(s.visit, 10, 6))
    ensures GlobMatch(FileGlob(g), CanonicalName(s))
  {
    var t0, t1, t3, t4 := Digits.FormatInt(s.catId, 10, 5), Digits.FormatInt(s.tract, 10, 5),
      Digits.FormatInt(s.objId, 16, 16), Digits.FormatInt(s.visit, 10, 6);
    GlobHead(g[0], g[1], g[2], t0, t1, s.patch);
    var p := "pfsSingle-" + g[0] + "-" + g[1] + "-" + g[2];
    var t := "pfsSingle-" + t0 + "-" + t1 + "-" + s.patch;
    GlobTail(p, t, g[3], g[4], t3, t4);
  }

  lemma GlobHead(g0: string, g1: string, g2: string, t0: string, t1: string, t2: string)
    requires GlobMatch(g0, t0) && GlobMatch(g1, t1) && GlobMatch(g2, t2)
    ensures GlobMatch("pfsSingle-" + g0 + "-" + g1 + "-" + g2, "pfsSingle-" + t0 + "-" + t1 + "-" + t2)
  {
    GlobLiteral("pfsSingle-");
    GlobAppend("pfsSingle-", "pfsSingle-", g0, t0);
    GlobDash("pfsSingle-" + g0, "pfsSingle-" + t0, g1, t1);
    GlobDash("pfsSingle-" + g0 + "-" + g1, "pfsSingle-" + t0 + "-" + t1, g2, t2);
  }

  lemma GlobTail(p: string, t: string, g3: string, g4: string, t3: string, t4: string)
    requires GlobMatch(p, t) && GlobMatch(g3, t3) && GlobMatch(g4, t4)
    ensures GlobMatch(p + "-" + g3 + "-" + g4 + ".fits", t + "-" + t3 + "-" + t4 + ".fits")
  {
    GlobLiteral(".fits");
    GlobDash(p, t, g3, t3);
    GlobDash(p + "-" + g3, t + "-" + t3, g4, t4);
    GlobAppend(p + "-" + g3 + "-" + g4, t + "-" + t3 + "-" + t4, ".fits", ".fits");
  }

  // ---------------------------------------------------------------------
  // Saving the configurations

  /** What `run` writes for one object: the configuration's target and directories. */
  datatype Snapshot = Snapshot(
    catId: int, tract: int, patch: string, objId: int, visits: set<int>,
    workdir: string, datadir: string, rerundir: string, outdir: string)

  datatype Saved = Saved(path: string, snapshot: Snapshot)

  /**
   * The calls into code this model does not see: `wraparoundNVisit`,
   * `calculatePfsVisitHash`, and `str.format(**identity)` on a directory.
   */
  datatype RunServices = RunServices(
    wrapNVisit: nat -> int, visitHash: seq<int> -> int, expand: (string, Identity.ObjectIdentity) -> string)

  function IdentityOf(t: Target, svc: RunServices): (id: Identity.ObjectIdentity)
    ensures Identity.Complete(id)
  {
    Identity.ObjectIdentity(Some(t.catId), Some(t.tract), Some(t.patch), Some(t.objId),
      Some(svc.wrapNVisit(|t.visits|)), Some(svc.visitHash(t.visits)))
  }

  /** `PFSGACONFIG_FILENAME_FORMAT`: the identity's text between `pfsGAConfig-` and `.yaml`. */
  function ConfigFilename(t: Target, svc: RunServices): (f: string)
    ensures var text := Identity.IdentityText(IdentityOf(t, svc));
      text.Ok? && text.value.Some? && f == "pfsGAConfig-" + text.value.value + ".yaml"
  {
    "pfsGAConfig-" + Identity.IdentityText(IdentityOf(t, svc)).value.value + ".yaml"
  }

  /** One iteration of `run`: formatting a directory that is None raises AttributeError. */
  function SaveFor(t: Target, d: Dirs, svc: RunServices): (r: Result<Saved>)
    ensures r.Fail? <==> d.workdir.None? || d.datadir.None? || d.rerundir.None? || d.outdir.None?
    ensures r.Fail? ==> r.error == AttributeError
    ensures r.Ok? ==> r.value.snapshot.objId == t.objId && r.value.snapshot.visits == (set v | v in t.visits)
    ensures r.Ok? ==> r.value.snapshot.outdir == svc.expand(d.outdir.value, IdentityOf(t, svc))
    ensures r.Ok? ==> r.value.path == Locator.JoinPath(r.value.snapshot.outdir, ConfigFilename(t, svc))
  {
    if d.workdir.None? || d.datadir.None? || d.rerundir.None? || d.outdir.None? then Fail(AttributeError)
    else
      var id := IdentityOf(t, svc);
      var outdir := svc.expand(d.outdir.value, id);
      Ok(Saved(Locator.JoinPath(outdir, ConfigFilename(t, svc)),
        Snapshot(t.catId, t.tract, t.patch, t.objId, (set v | v in t.visits),
          svc.expand(d.workdir.value, id), svc.expand(d.datadir.value, id), svc.expand(d.rerundir.value, id), outdir)))
  }

  /** The save of each object of `ids`, in that order; `targets[objId]` of a missing key raises KeyError. */
  function SaveResults(byId: map<int, Target>, ids: seq<int>, d: Dirs, svc: RunServices): (os: seq<Result<Saved>>)
    ensures |os| == |ids|
    ensures forall k :: 0 <= k < |ids| && ids[k] in byId ==> os[k] == SaveFor(byId[ids[k]], d, svc)
    ensures forall k :: 0 <= k < |ids| && ids[k] !in byId ==> os[k] == Fail(KeyError)
  {
    seq(|ids|, k requires 0 <= k < |ids| => if ids[k] in byId then SaveFor(byId[ids[k]], d, svc) else Fail(KeyError))
  }

  /** The save loop: the saves made, and the error that stopped it. */
  function Writes(os: seq<Result<Saved>>): (r: (seq<Saved>, Option<Error>))
    ensures |r.0| <= |os|
    ensures r.1.None? ==> |r.0| == |os|
    ensures forall k :: 0 <= k < |r.0| ==> os[k] == Ok(r.0[k])
    ensures r.1.Some? ==> |r.0| < |os| && os[|r.0|] == Fail(r.1.value)
    decreases |os|
  {
    if os == [] then ([], None)
    else
      var prev := Writes(os[..|os| - 1]);
      if prev.1.Some? then prev
      else
        match os[|os| - 1]
        case Fail(e) => (prev.0, Some(e))
        case Ok(s) => (prev.0 + [s], None)
  }

  /** A failure in a prefix of the objects is the failure of the whole loop. */
  lemma {:induction false} WritesFailureSticks(os: seq<Result<Saved>>, n: nat)
    requires n <= |os| && Writes(os[..n]).1.Some?
    ensures Writes(os) == Writes(os[..n])
    decreases |os| - n
  {
    if n < |os| {
      assert os[..n + 1][..n] == os[..n];
      WritesFailureSticks(os, n + 1);
    } else {
      assert os[..n] == os;
    }
  }

  lemma {:induction false} DistinctCount(s: seq<int>, x: int)
    requires Distinct(s)
    ensures multiset(s)[x] <= 1
    decreases |s|
  {
    if s != [] {
      var n := |s| - 1;
      assert s == s[..n] + [s[n]];
      assert Distinct(s[..n]);
      DistinctCount(s[..n], x);
      if s[n] == x {
        assert x !in s[..n];
      }
    }
  }

  lemma SameElementsDistinct(a: seq<int>, b: seq<int>)
    requires Distinct(a) && multiset(a) == multiset(b)
    ensures Distinct(b)
  {
    forall i, j | 0 <= i < j < |b|
      ensures b[i] != b[j]
    {
      if b[i] == b[j] {
        var x := b[i];
        assert b == b[..j] + [b[j]] + b[j + 1..];
        assert x in b[..j];
        assert multiset(b)[x] == multiset(b[..j])[x] + 1 + multiset(b[j + 1..])[x];
        DistinctCount(a, x);
        assert false;
      }
    }
  }

  /** `sorted(targets.keys())`: every key once, in strictly ascending order. */
  lemma SortedKeys(ts: Targets)
    requires Distinct(ts.order) && forall o :: o in ts.byId <==> o in ts.order
    ensures var ids := Sorting.Sort(ts.order);
      (forall i, j :: 0 <= i < j < |ids| ==> ids[i] < ids[j]) &&
      forall o :: o in ts.byId <==> o in ids
  {
    var ids := Sorting.Sort(ts.order);
    SameElementsDistinct(ts.order, ids);
    forall o
      ensures o in ts.byId <==> o in ids
    {
      assert o in ids <==> o in multiset(ids);
      assert o in ts.order <==> o in multiset(ts.order);
    }
  }

  /**
   * `run` saves the objects in ascending objId order, each once, and all of
   * them unless a directory is missing, in which case it stops at the
   * first object with AttributeError.
   */
  lemma RunOrder(ts: Targets, d: Dirs, svc: RunServices)
    requires Distinct(ts.order) && forall o :: o in ts.byId <==> o in ts.order
    requires forall o :: o in ts.byId ==> ts.byId[o].objId == o
    ensures var ids := Sorting.Sort(ts.order);
      (forall k :: 0 <= k < |ids| ==> ids[k] in ts.byId) &&
      var r := Writes(SaveResults(ts.byId, ids, d, svc));
      (forall i, j :: 0 <= i < j < |r.0| ==> r.0[i].snapshot.objId < r.0[j].snapshot.objId) &&
      (r.1.None? ==> forall o :: o in ts.byId ==> exists k :: 0 <= k < |r.0| && r.0[k].snapshot.objId == o) &&
      (r.1.Some? ==> r.0 == [] && r.1 == Some(AttributeError))
  {
    var ids := Sorting.Sort(ts.order);
    SortedKeys(ts);
    assert forall k :: 0 <= k < |ids| ==> ids[k] in ts.byId by {
      forall k | 0 <= k < |ids|
        ensures ids[k] in ts.byId
      {
        assert ids[k] in ids;
      }
    }
    var os := SaveResults(ts.byId, ids, d, svc);
    var r := Writes(os);
    forall i | 0 <= i < |r.0|
      ensures r.0[i].snapshot.objId == ids[i]
    {
      assert os[i] == Ok(r.0[i]);
    }
    if r.1.None? {
      forall o | o in ts.byId
        ensures exists k :: 0 <= k < |r.0| && r.0[k].snapshot.objId == o
      {
        var k :| 0 <= k < |ids| && ids[k] == o;
        assert r.0[k].snapshot.objId == o;
      }
    } else {
      assert SaveFor(ts.byId[ids[|r.0|]], d, svc).Fail?;
      assert os[0] == SaveFor(ts.byId[ids[0]], d, svc);
      assert os[0].Fail?;
    }
  }

  // ---------------------------------------------------------------------
  // The script object

  class ConfigureScript {
    const catId: IdFilter
    const tract: IdFilter
    var patch: Option<string>
    const objId: IdFilter
    const visit: IdFilter
    var dirs: Dirs

    /** Four distinct filters of the right kinds, with the formats the script gives them. */
    ghost predicate Valid()
      reads this, catId, tract, objId, visit
    {
      catId.kind == IntKind && tract.kind == IntKind && objId.kind == HexKind && visit.kind == IntKind &&
      catId.format == FormatText(CatIdFormat) && tract.format == FormatText(TractFormat) &&
      objId.format == FormatText(ObjIdFormat) && visit.format == FormatText(VisitFormat) &&
      catId != tract && catId != objId && catId != visit && tract != objId && tract != visit && objId != visit
    }

    /**
     * `Configure()` as evidently intended: the objId filter is a hex filter
     * named `objid` with format `{:016x}`. No filter has values yet.
     */
    constructor ()
      ensures Valid() && fresh(catId) && fresh(tract) && fresh(objId) && fresh(visit)
      ensures catId.name == Some("catid") && tract.name == Some("tract") && objId.name == Some("objid") && visit.name == Some("visit")
      ensures catId.values.None? && tract.values.None? && objId.values.None? && visit.values.None?
      ensures patch.None? && dirs == Dirs(None, None, None, None)
    {
      catId := new IdFilter(IntKind, Some("catid"), Some(CatIdFormat), null);
      tract := new IdFilter(IntKind, Some("tract"), Some(TractFormat), null);
      objId := new IdFilter(HexKind, Some("objid"), Some(ObjIdFormat), null);
      visit := new IdFilter(IntKind, Some("visit"), Some(VisitFormat), null);
      patch := None;
      dirs := Dirs(None, None, None, None);
    }

    /** The parsed filters, once all four have values. */
    function Current(): (r: Option<Criteria>)
      reads this, catId, tract, objId, visit
      ensures r.Some? <==> catId.values.Some? && tract.values.Some? && objId.values.Some? && visit.values.Some?
      ensures r.Some? ==> r.value.patch == patch
    {
      if catId.values.Some? && tract.values.Some? && objId.values.Some? && visit.values.Some? then
        Some(Criteria(catId.values.value, tract.values.value, patch, objId.values.value, visit.values.value))
      else None
    }

    /**
     * `_init_from_args`: the directories take the command line over the
     * configuration file, then the filters parse their arguments; the
     * first token that does not parse raises ValueError.
     */
    method InitFromArgs(a: Args, config: Dirs) returns (failure: Option<Error>)
      requires Valid()
      modifies this, catId, tract, objId, visit
      ensures Valid()
      ensures dirs == DirsFrom(a, config)
      ensures failure.None? <==> ParsedCriteria(a, old(patch)).Ok?
      ensures failure.Some? ==> ParsedCriteria(a, old(patch)) == Fail(failure.value)
      ensures failure.None? ==> Current() == Some(ParsedCriteria(a, old(patch)).value)
    {
      dirs := DirsFrom(a, config);
      failure := catId.Parse(a.catId);
      if failure.Some? {
        return;
      }
      failure := tract.Parse(TractTokens(GetArg(a.tract, None)));
      if failure.Some? {
        return;
      }
      patch := GetArg(a.patch, patch);
      failure := objId.Parse(a.objId);
      if failure.Some? {
        return;
      }
      failure := visit.Parse(a.visit);
    }

    /** `__get_pfsSingle_targets`, with the file system's `glob` and the file-name regex as parameters. */
    method GetTargets(glob: string -> seq<string>, parse: string -> Option<Groups>) returns (r: Result<Targets>)
      requires Valid() && Current().Some?
      ensures r == PfsSingleTargets(Current().value, dirs, glob, parse)
    {
      var c := Current().value;
      var cg := catId.Glob();
      var tg := tract.Glob();
      var og := objId.Glob();
      var vg := visit.Glob();
      if cg.Fail? {
        return Fail(cg.error);
      } else if tg.Fail? {
        return Fail(tg.error);
      } else if og.Fail? {
        return Fail(og.error);
      } else if vg.Fail? {
        return Fail(vg.error);
      }
      var g := [cg.value, tg.value, if patch.Some? then patch.value else "*", og.value, vg.value];
      assert FieldGlobs(c) == Ok(g);
      if dirs.datadir.None? || dirs.rerundir.None? {
        return Fail(TypeError);
      }
      var paths := glob(Locator.JoinPaths([dirs.datadir.value, dirs.rerundir.value, DirGlob(g), FileGlob(g)]));
      r := CollectTargets(c, parse, paths);
    }

    /**
     * `run`: one configuration file per selected object, in ascending
     * objId order; the first object whose directories cannot be formatted
     * stops the loop with the files written so far.
     */
    method Run(glob: string -> seq<string>, parse: string -> Option<Groups>, svc: RunServices)
      returns (saves: seq<Saved>, failure: Option<Error>)
      requires Valid() && Current().Some?
      ensures var ts := PfsSingleTargets(Current().value, dirs, glob, parse);
        (ts.Fail? ==> saves == [] && failure == Some(ts.error)) &&
        (ts.Ok? ==> (saves, failure) == Writes(SaveResults(ts.value.byId, Sorting.Sort(ts.value.order), dirs, svc)))
    {
      var ts := GetTargets(glob, parse);
      if ts.Fail? {
        return [], Some(ts.error);
      }
      saves, failure := SaveAll(ts.value.byId, Sorting.Sort(ts.value.order), dirs, svc);
    }
  }

  /** `__get_pfsSingle_targets` after the glob: group the paths, then sort each object's lists. */
  method CollectTargets(c: Criteria, parse: string -> Option<Groups>, paths: seq<string>) returns (r: Result<Targets>)
    ensures r == GroupTargets(c, parse, paths)
  {
    var g := GroupPaths(c, parse, paths);
    if g.Fail? {
      return Fail(g.error);
    }
    GroupKeys(Scan(c, parse, paths).value);
    var sorted := SortEach(g.value.order, g.value.byId);
    r := Ok(Targets(g.value.order, sorted));
  }

  /** One more path: what `Scan` makes of it. */
  lemma ScanStep(c: Criteria, parse: string -> Option<Groups>, paths: seq<string>, i: nat)
    requires i < |paths| && Scan(c, parse, paths[..i]).Ok?
    ensures Outcome(c, parse, paths[i]).Fail? ==> Scan(c, parse, paths[..i + 1]) == Fail(Outcome(c, parse, paths[i]).error)
    ensures Outcome(c, parse, paths[i]) == Ok(None) ==> Scan(c, parse, paths[..i + 1]) == Scan(c, parse, paths[..i])
    ensures Outcome(c, parse, paths[i]).Ok? && Outcome(c, parse, paths[i]).value.Some? ==>
      Scan(c, parse, paths[..i + 1]) == Ok(Scan(c, parse, paths[..i]).value + [Hit(Outcome(c, parse, paths[i]).value.value, paths[i])])
  {
    assert paths[..i + 1][..i] == paths[..i];
  }

  /** One more hit: a known object gets the visit and the path appended, a new one is added at the end. */
  lemma GroupStep(h: seq<Hit>, x: Hit)
    ensures var g := Group(h);
      var o := x.single.objId;
      Group(h + [x]) ==
        if o in g.byId then
          Targets(g.order, g.byId[o := g.byId[o].(visits := g.byId[o].visits + [x.single.visit], files := g.byId[o].files + [x.path])])
        else
          Targets(g.order + [o], g.byId[o := Target(x.single.catId, x.single.tract, x.single.patch, o, [x.single.visit], [x.path])])
  {
    assert (h + [x])[..|h|] == h;
  }

  /** The body of the loop for a selected file: create the object on its first file, then append the visit and the path. */
  method AddHit(order: seq<int>, byId: map<int, Target>, s: Single, path: string) returns (order': seq<int>, byId': map<int, Target>)
    ensures s.objId in byId ==>
      order' == order && byId' == byId[s.objId := byId[s.objId].(visits := byId[s.objId].visits + [s.visit], files := byId[s.objId].files + [path])]
    ensures s.objId !in byId ==>
      order' == order + [s.objId] && byId' == byId[s.objId := Target(s.catId, s.tract, s.patch, s.objId, [s.visit], [path])]
  {
    order', byId' := order, byId;
    if s.objId !in byId' {
      order' := order' + [s.objId];
      byId' := byId'[s.objId := Target(s.catId, s.tract, s.patch, s.objId, [], [])];
      assert [] + [s.visit] == [s.visit] && [] + [path] == [path];
    }
    byId' := byId'[s.objId := byId'[s.objId].(visits := byId'[s.objId].visits + [s.visit], files := byId'[s.objId].files + [path])];
  }

  /** The loop over the globbed paths, keeping insertion order beside the dictionary. */
  method GroupPaths(c: Criteria, parse: string -> Option<Groups>, paths: seq<string>) returns (r: Result<Targets>)
    ensures Scan(c, parse, paths).Fail? ==> r == Fail(Scan(c, parse, paths).error)
    ensures Scan(c, parse, paths).Ok? ==> r == Ok(Group(Scan(c, parse, paths).value))
  {
    var order: seq<int> := [];
    var byId: map<int, Target> := map[];
    var i := 0;
    while i < |paths|
      invariant 0 <= i <= |paths|
      invariant Scan(c, parse, paths[..i]).Ok?
      invariant Targets(order, byId) == Group(Scan(c, parse, paths[..i]).value)
    {
      ScanStep(c, parse, paths, i);
      var o := Outcome(c, parse, paths[i]);
      if o.Fail? {
        ScanFailureSticks(c, parse, paths, i + 1);
        return Fail(o.error);
      }
      if o.value.Some? {
        GroupStep(Scan(c, parse, paths[..i]).value, Hit(o.value.value, paths[i]));
        order, byId := AddHit(order, byId, o.value.value, paths[i]);
      }
      i := i + 1;
    }
    assert paths[..i] == paths;
    r := Ok(Targets(order, byId));
  }

  /** `obj.visits.sort()` and `obj.files.sort()` for every object, in insertion order. */
  method SortEach(order: seq<int>, byId: map<int, Target>) returns (sorted: map<int, Target>)
    requires Distinct(order)
    requires forall o :: o in byId <==> o in order
    ensures sorted == SortTargets(byId)
  {
    sorted := byId;
    var j := 0;
    while j < |order|
      invariant 0 <= j <= |order|
      invariant sorted.Keys == byId.Keys
      invariant forall o :: o in sorted ==> sorted[o] == if o in order[..j] then SortTarget(byId[o]) else byId[o]
    {
      var o := order[j];
      assert o !in order[..j];
      assert order[..j + 1] == order[..j] + [o];
      sorted := sorted[o := sorted[o].(visits := Sorting.Sort(sorted[o].visits), files := Sorting.SortStrings(sorted[o].files))];
      j := j + 1;
    }
    assert order[..j] == order;
    assert forall o :: o in sorted ==> sorted[o] == SortTargets(byId)[o];
  }

  /** The loop of `run` over the sorted objIds: format the directories, name the file, save. */
  method SaveAll(byId: map<int, Target>, ids: seq<int>, d: Dirs, svc: RunServices) returns (saves: seq<Saved>, failure: Option<Error>)
    ensures (saves, failure) == Writes(SaveResults(byId, ids, d, svc))
  {
    ghost var os := SaveResults(byId, ids, d, svc);
    saves, failure := [], None;
    var k := 0;
    while k < |ids|
      invariant 0 <= k <= |ids|
      invariant Writes(os[..k]) == (saves, None) && failure.None?
    {
      assert os[..k + 1][..k] == os[..k];
      var s := if ids[k] in byId then SaveFor(byId[ids[k]], d, svc) else Fail(KeyError);
      if s.Fail? {
        failure := Some(s.error);
        WritesFailureSticks(os, k + 1);
        return;
      }
      saves := saves + [s.value];
      k := k + 1;
    }
    assert os[..k] == os;
  }
}
