/**
 * The local file-system locator (data/filesystemconnector.py and
 * discovery/filesystemdiscovery.py): the data and rerun directories a
 * reference path implies, the glob pattern a query expands to, the
 * find-and-filter loop over the names the glob returns, and the rule that
 * picks a single file. The file system itself is a parameter: the list of
 * paths the glob returned.
 */
module Locator {
  import opened Wrappers
  import opened Values
  import opened Filters
  import opened Grammar
  import Text
  import Dates

  // ---------------------------------------------------------------------
  // Path components

  /** `os.path.join(a, b)`: an absolute `b` replaces `a`; a separator is added only when `a` lacks one. */
  function JoinPath(a: string, b: string): (r: string)
    ensures |a| > 0 && a[0] == '/' ==> |r| > 0 && r[0] == '/'
  {
    if |b| > 0 && b[0] == '/' then b
    else if a == [] || a[|a| - 1] == '/' then a + b
    else a + "/" + b
  }

  /** `os.path.join(*parts)`, folding from the left. */
  function JoinPaths(parts: seq<string>): string
    requires |parts| >= 1
  {
    if |parts| == 1 then parts[0]
    else JoinPath(JoinPaths(parts[..|parts| - 1]), parts[|parts| - 1])
  }

  /** Parts that never trigger the special cases of `os.path.join`. */
  predicate PlainParts(parts: seq<string>) {
    (forall i :: 0 <= i < |parts| ==> parts[i] != [] && parts[i][|parts[i]| - 1] != '/') &&
    (forall i :: 0 < i < |parts| ==> parts[i][0] != '/')
  }

  /** For plain parts `os.path.join` is `'/'.join`. */
  lemma {:induction false} JoinPathsPlain(parts: seq<string>)
    requires |parts| >= 1 && PlainParts(parts)
    ensures JoinPaths(parts) == Text.Join(parts, '/')
  {
    if |parts| > 1 {
      var init := parts[..|parts| - 1];
      assert PlainParts(init);
      JoinPathsPlain(init);
      Text.JoinAppend(init, [parts[|parts| - 1]], '/');
      assert init + [parts[|parts| - 1]] == parts;
    }
  }

  /** `dirs.index(x)`. */
  function FirstIndex(dirs: seq<string>, x: string): (i: nat)
    requires x in dirs
    ensures i < |dirs| && dirs[i] == x && x !in dirs[..i]
  {
    if dirs[0] == x then 0
    else
      assert dirs == [dirs[0]] + dirs[1..];
      var j := FirstIndex(dirs[1..], x);
      assert dirs[..j + 1] == [dirs[0]] + dirs[1..][..j];
      j + 1
  }

  lemma FirstIndexAfter(a: seq<string>, b: seq<string>, x: string)
    requires x !in a && x in b
    ensures x in a + b && FirstIndex(a + b, x) == |a| + FirstIndex(b, x)
  {
    var i := FirstIndex(b, x);
    var ab := a + b;
    assert ab[|a| + i] == x;
  }

  /** A separator-free component between two separators splits off as one part. */
  lemma SplitMiddle(d: string, x: string, rest: string)
    requires '/' !in x
    ensures Text.Split(d + "/" + x + "/" + rest, '/') == Text.Split(d, '/') + [x] + Text.Split(rest, '/')
  {
    assert d + "/" + x + "/" + rest == d + ['/'] + (x + ['/'] + rest);
    Text.SplitAround(d, x + ['/'] + rest, '/');
    Text.SplitAfterFree(x, rest, '/');
  }

  // ---------------------------------------------------------------------
  // `os.path.abspath`

  /** The leading separators `normpath` keeps: two for exactly `//`, one for `/` or three or more, else none. */
  function InitialSlashes(p: string): (n: nat)
    ensures n <= 2
    ensures n > 0 <==> |p| > 0 && p[0] == '/'
  {
    if |p| >= 2 && p[0] == '/' && p[1] == '/' && !(|p| >= 3 && p[2] == '/') then 2
    else if |p| > 0 && p[0] == '/' then 1
    else 0
  }

  /**
   * The component stack of `normpath`: empty and `.` components are
   * dropped, `..` removes the component before it, and a `..` with nothing
   * to remove is kept only in a relative path.
   */
  function Resolve(comps: seq<string>, rooted: bool, stack: seq<string>): seq<string>
    decreases |comps|
  {
    if comps == [] then stack
    else
      var c := comps[0];
      var next :=
        if c == "" || c == "." then stack
        else if c != ".." || (!rooted && stack == []) || (stack != [] && stack[|stack| - 1] == "..") then stack + [c]
        else if stack != [] then stack[..|stack| - 1]
        else stack;
      Resolve(comps[1..], rooted, next)
  }

  /** `os.path.normpath(p)`: never empty, and absolute when `p` is. */
  function NormPath(p: string): (r: string)
    ensures r != []
    ensures |p| > 0 && p[0] == '/' ==> r[0] == '/'
  {
    if p == [] then "."
    else
      var n := InitialSlashes(p);
      var lead := if n == 2 then "//" else if n == 1 then "/" else "";
      var s := lead + Text.Join(Resolve(Text.Split(p, '/'), n > 0, []), '/');
      if s == [] then "." else s
  }

  /** `os.path.abspath(p)` in the working directory `cwd`: a relative path is joined onto `cwd`, then normalised. */
  function AbsPath(cwd: string, p: string): (r: string)
    ensures r != []
    ensures |cwd| > 0 && cwd[0] == '/' ==> r[0] == '/'
  {
    NormPath(JoinPath(cwd, p))
  }

  /** A component `normpath` keeps as it is. */
  predicate Plain(c: string) {
    c != "" && c != "." && c != ".." && '/' !in c
  }

  /** Components that are all plain. */
  predicate AllPlain(cs: seq<string>) {
    forall i :: 0 <= i < |cs| ==> Plain(cs[i])
  }

  /** An absolute path `normpath` leaves alone: `/` alone, or `/` followed by plain components. */
  predicate NormalAbs(p: string) {
    p == "/" ||
    (|p| > 1 && p[0] == '/' && AllPlain(Text.Split(p[1..], '/')))
  }

  /** Plain components are pushed unchanged. */
  lemma {:induction false} ResolvePlain(comps: seq<string>, rooted: bool, stack: seq<string>)
    requires AllPlain(comps)
    ensures Resolve(comps, rooted, stack) == stack + comps
    decreases |comps|
  {
    if comps != [] {
      ResolvePlain(comps[1..], rooted, stack + [comps[0]]);
      assert stack + [comps[0]] + comps[1..] == stack + comps;
    }
  }

  /** In an absolute path the stack only ever holds plain components. */
  lemma {:induction false} ResolveRootedPlain(comps: seq<string>, stack: seq<string>)
    requires forall i :: 0 <= i < |comps| ==> '/' !in comps[i]
    requires AllPlain(stack)
    ensures AllPlain(Resolve(comps, true, stack))
    decreases |comps|
  {
    if comps != [] {
      var c := comps[0];
      var next :=
        if c == "" || c == "." then stack
        else if c != ".." || (stack != [] && stack[|stack| - 1] == "..") then stack + [c]
        else if stack != [] then stack[..|stack| - 1]
        else stack;
      assert Resolve(comps, true, stack) == Resolve(comps[1..], true, next);
      assert stack != [] ==> Plain(stack[|stack| - 1]);
      assert AllPlain(next) by {
        if c != "" && c != "." && c != ".." {
          assert Plain(c);
        }
      }
      assert forall i :: 0 <= i < |comps[1..]| ==> '/' !in comps[1..][i] by {
        forall i | 0 <= i < |comps[1..]| ensures '/' !in comps[1..][i] { assert comps[1..][i] == comps[i + 1]; }
      }
      ResolveRootedPlain(comps[1..], next);
    }
  }

  /** A path whose first component is plain has no second leading separator. */
  lemma PlainHead(t: string)
    requires Plain(Text.Split(t, '/')[0])
    ensures |t| > 0 && t[0] != '/'
  {
    if t == [] {
      Text.SplitNoSeparator(t, '/');
    }
  }

  /** A normal absolute path splits into an empty head and its plain components. */
  lemma NormalSplit(p: string)
    requires NormalAbs(p) && p != "/"
    ensures Text.Split(p, '/') == [""] + Text.Split(p[1..], '/')
    ensures InitialSlashes(p) == 1
  {
    assert p == [] + ['/'] + p[1..];
    Text.SplitAfterFree([], p[1..], '/');
    PlainHead(p[1..]);
  }

  /** `normpath` leaves a normal absolute path unchanged. */
  lemma NormPathFixes(p: string)
    requires NormalAbs(p)
    ensures NormPath(p) == p
  {
    if p == "/" {
      assert Text.Split("", '/') == [""];
      assert Text.Split(p, '/') == [""] + Text.Split("", '/');
      assert Resolve(["", ""], true, []) == [];
    } else {
      NormalSplit(p);
      var cs := Text.Split(p[1..], '/');
      ResolvePlain(cs, true, []);
      assert ([""] + cs)[1..] == cs;
      assert Resolve([""] + cs, true, []) == cs;
      Text.JoinSplit(p[1..], '/');
      assert "/" + p[1..] == p;
    }
  }

  /** With a single leading separator `normpath` yields a normal absolute path. */
  lemma NormPathNormal(p: string)
    requires InitialSlashes(p) == 1
    ensures NormalAbs(NormPath(p))
  {
    Text.SplitPartsFree(p, '/');
    var cs := Resolve(Text.Split(p, '/'), true, []);
    ResolveRootedPlain(Text.Split(p, '/'), []);
    var s := "/" + Text.Join(cs, '/');
    assert NormPath(p) == s;
    if cs != [] {
      assert forall i :: 0 <= i < |cs| ==> '/' !in cs[i] by {
        forall i | 0 <= i < |cs| ensures '/' !in cs[i] { assert Plain(cs[i]); }
      }
      Text.JoinThenSplit(cs, '/');
      assert s[1..] == Text.Join(cs, '/');
      if Text.Join(cs, '/') == [] {
        Text.SplitNoSeparator([], '/');
      }
    }
  }

  /**
   * `abspath` in a normal working directory gives a normal absolute path,
   * unless the path itself starts with exactly two separators, which
   * `normpath` keeps.
   */
  lemma AbsPathNormal(cwd: string, p: string)
    requires NormalAbs(cwd)
    requires |p| > 0 && p[0] == '/' ==> InitialSlashes(p) == 1
    ensures NormalAbs(AbsPath(cwd, p))
  {
    var j := JoinPath(cwd, p);
    if !(|p| > 0 && p[0] == '/') {
      if cwd != "/" {
        NormalSplit(cwd);
        assert j[..|cwd|] == cwd;
      }
    }
    assert InitialSlashes(j) == 1;
    NormPathNormal(j);
  }

  /** `abspath` leaves a normal absolute path unchanged, whatever the working directory. */
  lemma AbsPathOfNormal(cwd: string, p: string)
    requires NormalAbs(p)
    ensures AbsPath(cwd, p) == p
  {
    NormPathFixes(p);
  }

  /** `abspath` is idempotent in a normal working directory. */
  lemma AbsPathIdempotent(cwd: string, p: string)
    requires NormalAbs(cwd)
    requires |p| > 0 && p[0] == '/' ==> InitialSlashes(p) == 1
    ensures AbsPath(cwd, AbsPath(cwd, p)) == AbsPath(cwd, p)
  {
    AbsPathNormal(cwd, p);
    AbsPathOfNormal(cwd, AbsPath(cwd, p));
  }

  // ---------------------------------------------------------------------
  // `find_datadir` and `find_rerundir`

  /**
   * The path `find_datadir(reference_path)` hands to `abspath`: the
   * components before the first `rerun` component; without one,
   * ValueError. Without a reference path the configured data directory,
   * and `abspath(None)` raises TypeError.
   */
  function DatadirPath(reference: Option<string>, datadir: Option<string>): (r: Result<string>)
    ensures reference.Some? ==> (r.Fail? <==> "rerun" !in Text.Split(reference.value, '/'))
    ensures reference.None? ==> (r.Fail? <==> datadir.None?)
    ensures r.Fail? ==> r.error == (if reference.Some? then ValueError else TypeError)
  {
    if reference.Some? then
      var dirs := Text.Split(reference.value, '/');
      if "rerun" in dirs then Ok(Text.Join(dirs[..FirstIndex(dirs, "rerun")], '/'))
      else Fail(ValueError)
    else if datadir.None? then Fail(TypeError)
    else Ok(datadir.value)
  }

  /** The product directories `find_rerundir` looks for, in the order it tries them. */
  const ProductDirs: seq<string> := ["pfsArm", "pfsMerged", "pfsSingle", "pfsObject", "pfsGAObject"]

  /** The position of the first product of `products` that occurs among `dirs` at all. */
  function FirstPresent(products: seq<string>, dirs: seq<string>): (r: Option<nat>)
    ensures r.None? <==> forall m :: 0 <= m < |products| ==> products[m] !in dirs
    ensures r.Some? ==> exists m :: (0 <= m < |products| && products[m] in dirs && r.value == FirstIndex(dirs, products[m]) &&
      forall m' :: 0 <= m' < m ==> products[m'] !in dirs)
  {
    if products == [] then None
    else if products[0] in dirs then Some(FirstIndex(dirs, products[0]))
    else
      var r := FirstPresent(products[1..], dirs);
      assert forall m :: 1 <= m < |products| ==> products[m] == products[1..][m - 1];
      r
  }

  /**
   * The loop of `find_rerundir`: `rerun_index` stays -1 until the first
   * product (in the fixed order) present among the components.
   */
  method ScanRerunIndex(dirs: seq<string>) returns (index: int)
    ensures index == match FirstPresent(ProductDirs, dirs) case None => -1 case Some(i) => i
  {
    index := -1;
    var n := 0;
    while n < |ProductDirs|
      invariant 0 <= n <= |ProductDirs|
      invariant FirstPresent(ProductDirs, dirs) == FirstPresent(ProductDirs[n..], dirs)
      invariant index == -1
    {
      if ProductDirs[n] in dirs {
        index := FirstIndex(dirs, ProductDirs[n]);
        return;
      }
      assert ProductDirs[n..][1..] == ProductDirs[n + 1..];
      n := n + 1;
    }
  }

  /**
   * The path `find_rerundir(reference_path)` hands to `abspath`: the
   * components before the first product directory; none of them gives
   * ValueError. Without a reference path the configured data and rerun
   * directories joined, and a missing one raises TypeError.
   */
  function RerundirPath(reference: Option<string>, datadir: Option<string>, rerundir: Option<string>): (r: Result<string>)
    ensures reference.Some? ==> (r.Fail? <==> forall m :: 0 <= m < |ProductDirs| ==> ProductDirs[m] !in Text.Split(reference.value, '/'))
    ensures reference.None? ==> (r.Fail? <==> datadir.None? || rerundir.None?)
    ensures r.Fail? ==> r.error == (if reference.Some? then ValueError else TypeError)
  {
    if reference.Some? then
      var dirs := Text.Split(reference.value, '/');
      match FirstPresent(ProductDirs, dirs)
      case None => Fail(ValueError)
      case Some(i) => Ok(Text.Join(dirs[..i], '/'))
    else if datadir.None? || rerundir.None? then Fail(TypeError)
    else Ok(JoinPath(datadir.value, rerundir.value))
  }

  /**
   * `find_datadir(reference_path)`: the path of `DatadirPath` made
   * absolute in the working directory `cwd`; the failures are those of
   * `DatadirPath`.
   */
  function DatadirOf(cwd: string, reference: Option<string>, datadir: Option<string>): (r: Result<string>)
    ensures reference.Some? ==> (r.Fail? <==> "rerun" !in Text.Split(reference.value, '/'))
    ensures reference.None? ==> (r.Fail? <==> datadir.None?)
    ensures r.Fail? ==> r.error == (if reference.Some? then ValueError else TypeError)
    ensures r.Ok? ==> r.value != []
    ensures r.Ok? && |cwd| > 0 && cwd[0] == '/' ==> r.value[0] == '/'
  {
    match DatadirPath(reference, datadir)
    case Fail(e) => Fail(e)
    case Ok(p) => Ok(AbsPath(cwd, p))
  }

  /**
   * `find_rerundir(reference_path)`: the path of `RerundirPath` made
   * absolute in the working directory `cwd`; the failures are those of
   * `RerundirPath`.
   */
  function RerundirOf(cwd: string, reference: Option<string>, datadir: Option<string>, rerundir: Option<string>): (r: Result<string>)
    ensures reference.Some? ==> (r.Fail? <==> forall m :: 0 <= m < |ProductDirs| ==> ProductDirs[m] !in Text.Split(reference.value, '/'))
    ensures reference.None? ==> (r.Fail? <==> datadir.None? || rerundir.None?)
    ensures r.Fail? ==> r.error == (if reference.Some? then ValueError else TypeError)
    ensures r.Ok? ==> r.value != []
    ensures r.Ok? && |cwd| > 0 && cwd[0] == '/' ==> r.value[0] == '/'
  {
    match RerundirPath(reference, datadir, rerundir)
    case Fail(e) => Fail(e)
    case Ok(p) => Ok(AbsPath(cwd, p))
  }

  /** A path component free of the separator. */
  predicate Component(s: string) {
    '/' !in s
  }

  /**
   * A file below `<d>/rerun/` gives back `d` made absolute, whatever
   * follows, provided no component of `d` is itself called `rerun`; a
   * normal absolute `d` comes back unchanged.
   */
  lemma DatadirRoundTrip(cwd: string, d: string, rest: string, datadir: Option<string>)
    requires "rerun" !in Text.Split(d, '/')
    ensures DatadirOf(cwd, Some(d + "/rerun/" + rest), datadir) == Ok(AbsPath(cwd, d))
    ensures NormalAbs(d) ==> DatadirOf(cwd, Some(d + "/rerun/" + rest), datadir) == Ok(d)
  {
    assert d + "/rerun/" + rest == d + "/" + "rerun" + "/" + rest;
    CutAt(d, "rerun", rest);
    if NormalAbs(d) {
      AbsPathOfNormal(cwd, d);
    }
  }

  /** The components before the first `x` of `d/x/rest`, when `d` has none, join back to `d`. */
  lemma CutAt(d: string, x: string, rest: string)
    requires '/' !in x && x !in Text.Split(d, '/')
    ensures var dirs := Text.Split(d + "/" + x + "/" + rest, '/');
      x in dirs && Text.Join(dirs[..FirstIndex(dirs, x)], '/') == d
  {
    SplitMiddle(d, x, rest);
    var a := Text.Split(d, '/');
    var b := [x] + Text.Split(rest, '/');
    assert a + [x] + Text.Split(rest, '/') == a + b;
    FirstIndexAfter(a, b, x);
    assert (a + b)[..|a|] == a;
    Text.JoinSplit(d, '/');
  }

  /**
   * A file below `<r>/<product>/` gives back `r` made absolute, provided
   * no other component is one of the product directories; a normal
   * absolute `r` comes back unchanged.
   */
  lemma RerundirRoundTrip(cwd: string, r: string, product: string, rest: string, datadir: Option<string>, rerundir: Option<string>)
    requires product in ProductDirs
    requires forall m :: 0 <= m < |ProductDirs| ==> ProductDirs[m] !in Text.Split(r, '/') && ProductDirs[m] !in Text.Split(rest, '/')
    ensures RerundirOf(cwd, Some(r + "/" + product + "/" + rest), datadir, rerundir) == Ok(AbsPath(cwd, r))
    ensures NormalAbs(r) ==> RerundirOf(cwd, Some(r + "/" + product + "/" + rest), datadir, rerundir) == Ok(r)
  {
    RerundirFound(cwd, r, product, rest, datadir, rerundir);
    if NormalAbs(r) {
      AbsPathOfNormal(cwd, r);
    }
  }

  /** The first half of `RerundirRoundTrip`: the part before the product directory, made absolute. */
  lemma RerundirFound(cwd: string, r: string, product: string, rest: string, datadir: Option<string>, rerundir: Option<string>)
    requires product in ProductDirs
    requires forall m :: 0 <= m < |ProductDirs| ==> ProductDirs[m] !in Text.Split(r, '/') && ProductDirs[m] !in Text.Split(rest, '/')
    ensures RerundirOf(cwd, Some(r + "/" + product + "/" + rest), datadir, rerundir) == Ok(AbsPath(cwd, r))
  {
    var k :| 0 <= k < |ProductDirs| && ProductDirs[k] == product;
    assert '/' !in product;
    SplitMiddle(r, product, rest);
    var dirs := Text.Split(r, '/') + [product] + Text.Split(rest, '/');
    OthersAbsent(r, product, rest, k);
    RerundirFirstPresent(dirs, k);
    CutAt(r, product, rest);
  }

  /** Only the one product directory is among the components. */
  lemma OthersAbsent(r: string, product: string, rest: string, k: nat)
    requires k < |ProductDirs| && ProductDirs[k] == product
    requires forall m :: 0 <= m < |ProductDirs| ==> ProductDirs[m] !in Text.Split(r, '/') && ProductDirs[m] !in Text.Split(rest, '/')
    ensures forall m :: 0 <= m < |ProductDirs| && m != k ==> ProductDirs[m] !in Text.Split(r, '/') + [product] + Text.Split(rest, '/')
  {
    var dirs := Text.Split(r, '/') + [product] + Text.Split(rest, '/');
    forall m | 0 <= m < |ProductDirs| && m != k
      ensures ProductDirs[m] !in dirs
    {
    }
  }

  lemma RerundirFirstPresent(dirs: seq<string>, k: nat)
    requires k < |ProductDirs| && ProductDirs[k] in dirs
    requires forall m :: 0 <= m < |ProductDirs| && m != k ==> ProductDirs[m] !in dirs
    ensures FirstPresent(ProductDirs, dirs) == Some(FirstIndex(dirs, ProductDirs[k]))
  {
    var r := FirstPresent(ProductDirs, dirs);
    var m :| 0 <= m < |ProductDirs| && ProductDirs[m] in dirs && r.value == FirstIndex(dirs, ProductDirs[m]);
    assert m == k;
  }

  /**
   * An example of the product list being tried in its own order, not in
   * the order of the components: a pfsArm directory deeper in the path
   * wins over an earlier pfsSingle directory.
   */
  lemma RerundirFollowsListOrder(cwd: string, a: string, b: string, c: string)
    requires Component(a) && Component(b) && Component(c)
    requires a != "pfsArm" && b != "pfsArm"
    ensures RerundirOf(cwd, Some(a + "/pfsSingle/" + b + "/pfsArm/" + c), None, None) == Ok(AbsPath(cwd, a + "/pfsSingle/" + b))
  {
    assert a + "/pfsSingle/" + b + "/pfsArm/" + c == a + "/" + "pfsSingle" + "/" + (b + "/" + "pfsArm" + "/" + c);
    assert a + "/pfsSingle/" + b == a + "/" + "pfsSingle" + "/" + b;
    LaterFirstWins(a, "pfsSingle", b, ProductDirs[0], c);
  }

  /** With `y` first in the product list, `a/x/b/y/c` is cut before `y`. */
  lemma LaterFirstWins(a: string, x: string, b: string, y: string, c: string)
    requires Component(a) && Component(x) && Component(b) && Component(y) && Component(c)
    requires y == ProductDirs[0] && a != y && x != y && b != y
    ensures Text.Split(a + "/" + x + "/" + (b + "/" + y + "/" + c), '/') == [a, x, b, y, c]
    ensures FirstPresent(ProductDirs, [a, x, b, y, c]) == Some(3)
    ensures Text.Join([a, x, b, y, c][..3], '/') == a + "/" + x + "/" + b
  {
    SplitFive(a, x, b, y, c);
    var dirs := [a, x, b, y, c];
    FirstIndexFour(dirs, y);
    ArmFirst(dirs);
    JoinThree(a, x, b);
    assert dirs[..3] == [a, x, b];
  }

  lemma ArmFirst(dirs: seq<string>)
    requires ProductDirs[0] in dirs
    ensures FirstPresent(ProductDirs, dirs) == Some(FirstIndex(dirs, ProductDirs[0]))
  {
  }

  lemma JoinThree(a: string, x: string, b: string)
    ensures Text.Join([a, x, b], '/') == a + "/" + x + "/" + b
  {
    assert [a, x, b][1..] == [x, b];
    assert [x, b][1..] == [b];
    assert Text.Join([b], '/') == b;
    assert Text.Join([x, b], '/') == x + "/" + b;
  }

  lemma SplitFive(a: string, x: string, b: string, y: string, c: string)
    requires Component(a) && Component(x) && Component(b) && Component(y) && Component(c)
    ensures Text.Split(a + "/" + x + "/" + (b + "/" + y + "/" + c), '/') == [a, x, b, y, c]
  {
    SplitMiddle(a, x, b + "/" + y + "/" + c);
    SplitMiddle(b, y, c);
    Text.SplitNoSeparator(a, '/');
    Text.SplitNoSeparator(b, '/');
    Text.SplitNoSeparator(c, '/');
  }

  lemma FirstIndexFour(dirs: seq<string>, y: string)
    requires |dirs| == 5 && dirs[3] == y && dirs[0] != y && dirs[1] != y && dirs[2] != y
    ensures y in dirs && FirstIndex(dirs, y) == 3
  {
  }

  // ---------------------------------------------------------------------
  // `__find_files_and_match_params`

  /** One entry of the `params` namespace a finder builds: the product parameter and the filter's values. */
  datatype Criterion = Criterion(param: Param, values: Option<seq<Entry>>)

  function ParamsOf(crits: seq<Criterion>): (ps: seq<Param>)
    ensures |ps| == |crits| && forall i :: 0 <= i < |crits| ==> ps[i] == crits[i].param
  {
    seq(|crits|, i requires 0 <= i < |crits| => crits[i].param)
  }

  /** `param.parse_value(match.group(k))`: a group the expression lacks raises IndexError. */
  function ReadGroup(c: Criterion, caps: Captures): Result<Value> {
    if c.param.name !in caps then Fail(IndexError) else ParseValue(c.param.kind, caps[c.param.name])
  }

  /** `param.match(value)` on the value just parsed. */
  function Judge(c: Criterion, v: Value): Result<bool> {
    MatchProbe(c.param.kind, c.values, Given(v))
  }

  /**
   * The inner loop over the first `k` parameters: each group is read and
   * then judged, `good &= ...` keeps going after a False, and the first
   * exception ends the search.
   */
  function CheckPrefix(crits: seq<Criterion>, caps: Captures, k: nat): Result<(seq<Value>, bool)>
    requires k <= |crits|
  {
    if k == 0 then Ok(([], true))
    else match CheckPrefix(crits, caps, k - 1)
      case Fail(e) => Fail(e)
      case Ok((vals, good)) =>
        match ReadGroup(crits[k - 1], caps)
        case Fail(e) => Fail(e)
        case Ok(v) =>
          match Judge(crits[k - 1], v)
          case Fail(e) => Fail(e)
          case Ok(m) => Ok((vals + [v], good && m))
  }

  /**
   * The check over the first `k` parameters succeeds exactly when each of
   * them parses and can be compared; it then holds their values, and its
   * verdict is True exactly when every filter matches.
   */
  lemma {:induction false} CheckPrefixMeans(crits: seq<Criterion>, caps: Captures, k: nat)
    requires k <= |crits|
    ensures var r := CheckPrefix(crits, caps, k);
      (r.Ok? <==> forall i :: 0 <= i < k ==> ReadGroup(crits[i], caps).Ok? && Judge(crits[i], ReadGroup(crits[i], caps).value).Ok?) &&
      (r.Ok? ==> |r.value.0| == k && forall i :: 0 <= i < k ==> ReadGroup(crits[i], caps) == Ok(r.value.0[i])) &&
      (r.Ok? ==> (r.value.1 <==> forall i :: 0 <= i < k ==> Judge(crits[i], r.value.0[i]) == Ok(true)))
  {
    CheckPrefixOk(crits, caps, k);
    CheckPrefixValues(crits, caps, k);
    CheckPrefixVerdict(crits, caps, k);
  }

  lemma {:induction false} CheckPrefixOk(crits: seq<Criterion>, caps: Captures, k: nat)
    requires k <= |crits|
    ensures CheckPrefix(crits, caps, k).Ok? <==> forall i :: 0 <= i < k ==> Comparable(crits[i], caps)
  {
    if k > 0 {
      CheckPrefixOk(crits, caps, k - 1);
      var good := forall i :: 0 <= i < k ==> Comparable(crits[i], caps);
      assert good <==> (forall i :: 0 <= i < k - 1 ==> Comparable(crits[i], caps)) && Comparable(crits[k - 1], caps);
      assert CheckPrefix(crits, caps, k).Ok? <==> CheckPrefix(crits, caps, k - 1).Ok? && Comparable(crits[k - 1], caps);
    }
  }

  /** The group of one parameter parses and its filter can judge the value. */
  predicate Comparable(c: Criterion, caps: Captures) {
    ReadGroup(c, caps).Ok? && Judge(c, ReadGroup(c, caps).value).Ok?
  }

  lemma {:induction false} CheckPrefixValues(crits: seq<Criterion>, caps: Captures, k: nat)
    requires k <= |crits|
    ensures var r := CheckPrefix(crits, caps, k);
      r.Ok? ==> |r.value.0| == k && forall i :: 0 <= i < k ==> ReadGroup(crits[i], caps) == Ok(r.value.0[i])
  {
    if k > 0 {
      CheckPrefixValues(crits, caps, k - 1);
    }
  }

  lemma {:induction false} CheckPrefixVerdict(crits: seq<Criterion>, caps: Captures, k: nat)
    requires k <= |crits|
    ensures var r := CheckPrefix(crits, caps, k);
      r.Ok? ==> |r.value.0| == k && (r.value.1 <==> forall i :: 0 <= i < k ==> Judge(crits[i], r.value.0[i]) == Ok(true))
  {
    if k > 0 {
      CheckPrefixVerdict(crits, caps, k - 1);
      var r := CheckPrefix(crits, caps, k);
      if r.Ok? {
        var p := CheckPrefix(crits, caps, k - 1).value;
        var v := ReadGroup(crits[k - 1], caps).value;
        var m := Judge(crits[k - 1], v).value;
        assert r.value == (p.0 + [v], p.1 && m);
        assert forall i :: 0 <= i < k - 1 ==> r.value.0[i] == p.0[i];
      }
    }
  }

  /** A name is accepted when it parses to `vals` and every filter matches its value. */
  predicate Accepts(crits: seq<Criterion>, r: Regex, path: string, vals: seq<Value>) {
    ParseFilename(ParamsOf(crits), r, path) == Ok(vals) &&
    |vals| == |crits| && forall i :: 0 <= i < |crits| ==> Judge(crits[i], vals[i]) == Ok(true)
  }

  /** A full check succeeds exactly where `__parse_filename_params` would, with the same values. */
  lemma CheckMeansParse(crits: seq<Criterion>, caps: Captures)
    ensures CheckPrefix(crits, caps, |crits|).Ok? ==> ParseParams(ParamsOf(crits), caps) == Ok(CheckPrefix(crits, caps, |crits|).value.0)
  {
    var r := CheckPrefix(crits, caps, |crits|);
    CheckPrefixMeans(crits, caps, |crits|);
    if r.Ok? {
      var ps := ParamsOf(crits);
      assert forall i :: 0 <= i < |ps| ==> ps[i].name in caps && ParseValue(ps[i].kind, caps[ps[i].name]).Ok? by {
        forall i | 0 <= i < |ps|
          ensures ps[i].name in caps && ParseValue(ps[i].kind, caps[ps[i].name]).Ok?
        {
          assert ReadGroup(crits[i], caps).Ok?;
        }
      }
      var q := ParseParams(ps, caps);
      assert |q.value| == |r.value.0|;
      forall i | 0 <= i < |ps|
        ensures q.value[i] == r.value.0[i]
      {
        assert ReadGroup(crits[i], caps) == Ok(r.value.0[i]);
      }
      assert q.value == r.value.0;
    }
  }

  /** One row of the result: the path and the value of every parameter, in parameter order. */
  datatype Row = Row(path: string, vals: seq<Value>)

  /**
   * The outer loop over the paths the glob returned, in order: a name the
   * expression does not match is skipped, one whose parameters all match
   * is kept, and the first exception ends the search.
   */
  function Collect(crits: seq<Criterion>, r: Regex, paths: seq<string>): (res: Result<seq<Row>>)
    ensures res.Ok? ==> |res.value| <= |paths|
    decreases |paths|
  {
    if paths == [] then Ok([])
    else match Collect(crits, r, paths[..|paths| - 1])
      case Fail(e) => Fail(e)
      case Ok(rows) =>
        match Keep(crits, r, paths[|paths| - 1])
        case Fail(e) => Fail(e)
        case Ok(kept) => Ok(rows + kept)
  }

  /** What one path contributes: nothing, its row, or the exception it raises. */
  function Keep(crits: seq<Criterion>, r: Regex, p: string): (res: Result<seq<Row>>)
    ensures res.Ok? ==> |res.value| <= 1
  {
    match Search(r, p)
    case None => Ok([])
    case Some(caps) =>
      match CheckPrefix(crits, caps, |crits|)
      case Fail(e) => Fail(e)
      case Ok((vals, good)) => Ok(if good then [Row(p, vals)] else [])
  }

  /** Every row kept is one of the paths, parses to its values, and passes every filter. */
  lemma {:induction false} CollectSound(crits: seq<Criterion>, r: Regex, paths: seq<string>)
    requires Collect(crits, r, paths).Ok?
    ensures forall row :: row in Collect(crits, r, paths).value ==> row.path in paths && Accepts(crits, r, row.path, row.vals)
    decreases |paths|
  {
    if paths != [] {
      var init := paths[..|paths| - 1];
      var p := paths[|paths| - 1];
      CollectSound(crits, r, init);
      assert forall q :: q in init ==> q in paths;
      KeepSound(crits, r, p);
    }
  }

  lemma KeepSound(crits: seq<Criterion>, r: Regex, p: string)
    requires Keep(crits, r, p).Ok?
    ensures forall row :: row in Keep(crits, r, p).value ==> row.path == p && Accepts(crits, r, p, row.vals)
  {
    var caps := Search(r, p);
    if caps.Some? {
      CheckPrefixMeans(crits, caps.value, |crits|);
      CheckMeansParse(crits, caps.value);
    }
  }

  /** Every path that parses and passes every filter is kept, with its values. */
  lemma {:induction false} CollectComplete(crits: seq<Criterion>, r: Regex, paths: seq<string>, path: string, vals: seq<Value>)
    requires Collect(crits, r, paths).Ok?
    requires path in paths && Accepts(crits, r, path, vals)
    ensures Row(path, vals) in Collect(crits, r, paths).value
    decreases |paths|
  {
    var init := paths[..|paths| - 1];
    var p := paths[|paths| - 1];
    assert paths == init + [p];
    if path == p {
      AcceptedChecks(crits, r, p, vals);
    } else {
      assert path in init;
      CollectComplete(crits, r, init, path, vals);
    }
  }

  /** For an accepted name the full check gives its values and True, so the name is kept as one row. */
  lemma AcceptedChecks(crits: seq<Criterion>, r: Regex, path: string, vals: seq<Value>)
    requires Accepts(crits, r, path, vals)
    ensures Keep(crits, r, path) == Ok([Row(path, vals)])
  {
    AcceptedGroups(crits, r, path, vals);
    var caps := Search(r, path).value;
    CheckPrefixMeans(crits, caps, |crits|);
    CheckMeansParse(crits, caps);
    assert CheckPrefix(crits, caps, |crits|) == Ok((vals, true));
  }

  /** Every group of an accepted name reads back as its value. */
  lemma AcceptedGroups(crits: seq<Criterion>, r: Regex, path: string, vals: seq<Value>)
    requires Accepts(crits, r, path, vals)
    ensures Search(r, path).Some?
    ensures forall i :: 0 <= i < |crits| ==> ReadGroup(crits[i], Search(r, path).value) == Ok(vals[i])
  {
  }

  /** Names the expression does not match are never an error: with no match at all, nothing is found. */
  lemma {:induction false} CollectSkipsUnmatched(crits: seq<Criterion>, r: Regex, paths: seq<string>)
    requires forall p :: p in paths ==> Search(r, p).None?
    ensures Collect(crits, r, paths) == Ok([])
    decreases |paths|
  {
    if paths != [] {
      var init := paths[..|paths| - 1];
      assert forall q :: q in init ==> q in paths;
      CollectSkipsUnmatched(crits, r, init);
    }
  }

  /** The rows keep the order of the paths: the result for a concatenation is the concatenation. */
  lemma {:induction false} CollectAppend(crits: seq<Criterion>, r: Regex, ps: seq<string>, qs: seq<string>)
    requires Collect(crits, r, ps + qs).Ok?
    ensures Collect(crits, r, ps).Ok? && Collect(crits, r, qs).Ok?
    ensures Collect(crits, r, ps + qs).value == Collect(crits, r, ps).value + Collect(crits, r, qs).value
    decreases |qs|
  {
    if qs == [] {
      assert ps + qs == ps;
    } else {
      var init := qs[..|qs| - 1];
      var q := qs[|qs| - 1];
      assert (ps + qs)[..|ps + qs| - 1] == ps + init && (ps + qs)[|ps + qs| - 1] == q;
      CollectAppend(crits, r, ps, init);
      var a, b, k := Collect(crits, r, ps).value, Collect(crits, r, init).value, Keep(crits, r, q).value;
      assert (a + b) + k == a + (b + k);
    }
  }

  /** An exception in a prefix of the paths is the exception of the whole search. */
  lemma {:induction false} FailureSticks(crits: seq<Criterion>, r: Regex, paths: seq<string>, j: nat)
    requires j <= |paths| && Collect(crits, r, paths[..j]).Fail?
    ensures Collect(crits, r, paths) == Collect(crits, r, paths[..j])
    decreases |paths| - j
  {
    if j < |paths| {
      assert paths[..j + 1][..j] == paths[..j];
      FailureSticks(crits, r, paths, j + 1);
    } else {
      assert paths[..j] == paths;
    }
  }

  /** The two results: the kept paths and one id list per parameter. */
  datatype Found = Found(files: seq<string>, ids: seq<seq<Value>>)

  /** The file list and every id list have one entry per row, index by index. */
  predicate Aligned(f: Found, rows: seq<Row>, n: nat) {
    |f.files| == |rows| && |f.ids| == n &&
    (forall i :: 0 <= i < |rows| ==> f.files[i] == rows[i].path && |rows[i].vals| == n) &&
    (forall k :: 0 <= k < n ==> |f.ids[k]| == |rows|) &&
    (forall k, i :: 0 <= k < n && 0 <= i < |rows| ==> f.ids[k][i] == rows[i].vals[k])
  }

  /** Appending one row to the lists keeps them aligned. */
  lemma AlignedExtend(files: seq<string>, ids: seq<seq<Value>>, rows: seq<Row>, n: nat, p: string, vals: seq<Value>)
    requires Aligned(Found(files, ids), rows, n) && |vals| == n
    ensures Aligned(Found(files + [p], seq(n, k requires 0 <= k < n => ids[k] + [vals[k]])), rows + [Row(p, vals)], n)
  {
    var ids' := seq(n, k requires 0 <= k < n => ids[k] + [vals[k]]);
    var rows' := rows + [Row(p, vals)];
    forall k, i | 0 <= k < n && 0 <= i < |rows'|
      ensures ids'[k][i] == rows'[i].vals[k]
    {
      if i < |rows| {
        assert ids'[k][i] == ids[k][i];
      }
    }
  }

  lemma {:induction false} CheckFailureSticks(crits: seq<Criterion>, caps: Captures, k: nat)
    requires k <= |crits| && CheckPrefix(crits, caps, k).Fail?
    ensures CheckPrefix(crits, caps, |crits|) == CheckPrefix(crits, caps, k)
    decreases |crits| - k
  {
    if k < |crits| {
      CheckFailureSticks(crits, caps, k + 1);
    }
  }

  /** The inner loop of `__find_files_and_match_params` for one matched name. */
  method CheckGroups(crits: seq<Criterion>, caps: Captures) returns (res: Result<(seq<Value>, bool)>)
    ensures res == CheckPrefix(crits, caps, |crits|)
    ensures res.Ok? ==> |res.value.0| == |crits|
  {
    var values: seq<Value> := [];
    var good := true;
    var failure: Option<Error> := None;
    var k := 0;
    while k < |crits| && failure.None?
      invariant 0 <= k <= |crits|
      invariant failure.None? ==> CheckPrefix(crits, caps, k) == Ok((values, good)) && |values| == k
      invariant failure.Some? ==> CheckPrefix(crits, caps, k) == Fail(failure.value)
    {
      var v := ReadGroup(crits[k], caps);
      if v.Fail? {
        CheckStepFail(crits, caps, k, values, good, v.error);
        failure := Some(v.error);
      } else {
        var ok := Judge(crits[k], v.value);
        if ok.Fail? {
          JudgeStepFail(crits, caps, k, values, good, v.value, ok.error);
          failure := Some(ok.error);
        } else {
          CheckStepOk(crits, caps, k, values, good, v.value, ok.value);
          values := values + [v.value];
          good := good && ok.value;
        }
      }
      k := k + 1;
    }
    if failure.Some? {
      CheckFailureSticks(crits, caps, k);
      res := Fail(failure.value);
    } else {
      res := Ok((values, good));
    }
  }

  /** A parameter whose capture does not parse fails the check. */
  lemma CheckStepFail(crits: seq<Criterion>, caps: Captures, k: nat, vals: seq<Value>, good: bool, e: Error)
    requires k < |crits| && CheckPrefix(crits, caps, k) == Ok((vals, good))
    requires ReadGroup(crits[k], caps) == Fail(e)
    ensures CheckPrefix(crits, caps, k + 1) == Fail(e)
  {
  }

  /** A parameter whose value cannot be compared fails the check. */
  lemma JudgeStepFail(crits: seq<Criterion>, caps: Captures, k: nat, vals: seq<Value>, good: bool, v: Value, e: Error)
    requires k < |crits| && CheckPrefix(crits, caps, k) == Ok((vals, good))
    requires ReadGroup(crits[k], caps) == Ok(v) && Judge(crits[k], v) == Fail(e)
    ensures CheckPrefix(crits, caps, k + 1) == Fail(e)
  {
  }

  /** A parameter that parses and is judged extends the values and the verdict. */
  lemma CheckStepOk(crits: seq<Criterion>, caps: Captures, k: nat, vals: seq<Value>, good: bool, v: Value, m: bool)
    requires k < |crits| && CheckPrefix(crits, caps, k) == Ok((vals, good))
    requires ReadGroup(crits[k], caps) == Ok(v) && Judge(crits[k], v) == Ok(m)
    ensures CheckPrefix(crits, caps, k + 1) == Ok((vals + [v], good && m))
  {
  }

  /**
   * `__find_files_and_match_params` after the glob: the file list and the
   * per-parameter id lists are filled path by path, exactly as `Collect`
   * describes, or the first exception is raised.
   */
  method FindFiles(crits: seq<Criterion>, r: Regex, paths: seq<string>) returns (res: Result<Found>)
    ensures Collect(crits, r, paths).Fail? ==> res == Fail(Collect(crits, r, paths).error)
    ensures Collect(crits, r, paths).Ok? ==> res.Ok? && Aligned(res.value, Collect(crits, r, paths).value, |crits|)
  {
    var files: seq<string> := [];
    var ids: seq<seq<Value>> := seq(|crits|, _ => []);
    var failure: Option<Error> := None;
    var j := 0;
    while j < |paths| && failure.None?
      invariant 0 <= j <= |paths|
      invariant failure.None? ==> Collect(crits, r, paths[..j]).Ok?
      invariant failure.None? ==> Aligned(Found(files, ids), Collect(crits, r, paths[..j]).value, |crits|)
      invariant failure.Some? ==> Collect(crits, r, paths[..j]) == Fail(failure.value)
    {
      var p := paths[j];
      CollectStep(crits, r, paths, j);
      ghost var rows := Collect(crits, r, paths[..j]).value;
      var m := Search(r, p);
      if m.None? {
        assert Keep(crits, r, p) == Ok([]);
        assert rows + [] == rows;
      } else {
        var checked := CheckGroups(crits, m.value);
        if checked.Fail? {
          assert Keep(crits, r, p) == Fail(checked.error);
          failure := Some(checked.error);
        } else if checked.value.1 {
          var values := checked.value.0;
          assert Keep(crits, r, p) == Ok([Row(p, values)]);
          assert Collect(crits, r, paths[..j + 1]) == Ok(rows + [Row(p, values)]);
          AlignedExtend(files, ids, rows, |crits|, p, values);
          files := files + [p];
          ids := seq(|crits|, k requires 0 <= k < |crits| => ids[k] + [values[k]]);
        } else {
          assert Keep(crits, r, p) == Ok([]);
          assert rows + [] == rows;
        }
      }
      j := j + 1;
    }
    if failure.Some? {
      FailureSticks(crits, r, paths, j);
      res := Fail(failure.value);
    } else {
      assert paths[..|paths|] == paths;
      res := Ok(Found(files, ids));
    }
  }

  /** `Collect` over one more path: the rows so far, then what that path contributes. */
  lemma CollectStep(crits: seq<Criterion>, r: Regex, paths: seq<string>, j: nat)
    requires j < |paths|
    ensures Collect(crits, r, paths[..j + 1]) == match Collect(crits, r, paths[..j])
      case Fail(e) => Fail(e)
      case Ok(rows) => (match Keep(crits, r, paths[j]) case Fail(e) => Fail(e) case Ok(kept) => Ok(rows + kept))
  {
    assert paths[..j + 1][..j] == paths[..j] && paths[..j + 1][j] == paths[j];
  }


  // ---------------------------------------------------------------------
  // The glob pattern a query expands to

  /** `get_glob_pattern()` of the criterion's filter. */
  function GlobOf(c: Criterion): Result<string> {
    GlobPattern(c.param.format, c.values, if c.param.kind == DateKind then DateWildcard else "*")
  }

  /** `{k: p.get_glob_pattern() for k, p in params.items()}`: every pattern, or the first exception. */
  function GlobTable(crits: seq<Criterion>): (r: Result<seq<string>>)
    ensures r.Ok? <==> forall i :: 0 <= i < |crits| ==> GlobOf(crits[i]).Ok?
    ensures r.Ok? ==> |r.value| == |crits| && forall i :: 0 <= i < |crits| ==> GlobOf(crits[i]) == Ok(r.value[i])
  {
    if crits == [] then Ok([])
    else match GlobOf(crits[0])
      case Fail(e) => Fail(e)
      case Ok(g) =>
        match GlobTable(crits[1..])
        case Fail(e) =>
          assert exists i :: 0 <= i < |crits| && GlobOf(crits[i]).Fail? by {
            var i :| 0 <= i < |crits[1..]| && GlobOf(crits[1..][i]).Fail?;
            assert crits[i + 1] == crits[1..][i];
          }
          Fail(e)
        case Ok(gs) =>
          assert forall i :: 1 <= i < |crits| ==> crits[i] == crits[1..][i - 1];
          Ok([g] + gs)
  }

  /** One piece of `template.format(**glob_patterns)`: an unknown field raises KeyError. */
  function GlobPiece(p: Piece, crits: seq<Criterion>, globs: seq<string>): Result<string>
    requires |globs| == |crits|
  {
    match p
    case Text(s) => Ok(s)
    case Var(k) =>
      match IndexOfParam(ParamsOf(crits), k)
      case None => Fail(KeyError)
      case Some(j) => Ok(globs[j])
  }

  /** `template.format(**glob_patterns)`. */
  function GlobPieces(ps: seq<Piece>, crits: seq<Criterion>, globs: seq<string>): Result<string>
    requires |globs| == |crits|
  {
    if ps == [] then Ok("")
    else match GlobPiece(ps[0], crits, globs)
      case Fail(e) => Fail(e)
      case Ok(a) =>
        match GlobPieces(ps[1..], crits, globs)
        case Fail(e) => Fail(e)
        case Ok(b) => Ok(a + b)
  }

  /** Every template formatted, or the first exception. */
  function GlobTemplates(ts: seq<seq<Piece>>, crits: seq<Criterion>, globs: seq<string>): (r: Result<seq<string>>)
    requires |globs| == |crits|
    ensures r.Ok? ==> |r.value| == |ts|
  {
    if ts == [] then Ok([])
    else match GlobPieces(ts[0], crits, globs)
      case Fail(e) => Fail(e)
      case Ok(a) =>
        match GlobTemplates(ts[1..], crits, globs)
        case Fail(e) => Fail(e)
        case Ok(b) => Ok([a] + b)
  }

  /** The pattern handed to `glob`: the formatted templates joined as path components. */
  function GlobPath(templates: seq<seq<Piece>>, crits: seq<Criterion>): Result<string>
    requires |templates| >= 1
  {
    match GlobTable(crits)
    case Fail(e) => Fail(e)
    case Ok(globs) =>
      match GlobTemplates(templates, crits, globs)
      case Fail(e) => Fail(e)
      case Ok(parts) => Ok(JoinPaths(parts))
  }

  /** The names the templates give the file with parameter values `vals`. */
  function RenderTemplates(ts: seq<seq<Piece>>, params: seq<Param>, vals: seq<Value>): (r: Result<seq<string>>)
    requires |vals| == |params|
    ensures r.Ok? ==> |r.value| == |ts|
  {
    if ts == [] then Ok([])
    else match RenderPieces(ts[0], params, vals)
      case Fail(e) => Fail(e)
      case Ok(a) =>
        match RenderTemplates(ts[1..], params, vals)
        case Fail(e) => Fail(e)
        case Ok(b) => Ok([a] + b)
  }

  /** Glob patterns match piecewise: `*` and `?` never reach across the boundary. */
  lemma {:induction false} GlobAppend(p1: string, t1: string, p2: string, t2: string)
    requires GlobMatch(p1, t1) && GlobMatch(p2, t2)
    ensures GlobMatch(p1 + p2, t1 + t2)
    decreases |p1| + |t1|
  {
    if p1 == [] {
      assert p1 + p2 == p2 && t1 + t2 == t2;
    } else {
      assert (p1 + p2)[0] == p1[0] && (p1 + p2)[1..] == p1[1..] + p2;
      if p1[0] == '*' {
        if GlobMatch(p1[1..], t1) {
          GlobAppend(p1[1..], t1, p2, t2);
        } else {
          GlobAppend(p1, t1[1..], p2, t2);
          assert (t1 + t2)[0] == t1[0] && (t1 + t2)[1..] == t1[1..] + t2;
        }
      } else {
        GlobAppend(p1[1..], t1[1..], p2, t2);
        assert (t1 + t2)[0] == t1[0] && (t1 + t2)[1..] == t1[1..] + t2;
      }
    }
  }

  /** Literal text, slashes included, matches itself. */
  lemma {:induction false} GlobText(t: string)
    requires '*' !in t && '?' !in t
    ensures GlobMatch(t, t)
  {
    if t != [] {
      assert forall x :: x in t[1..] ==> x in t;
      GlobText(t[1..]);
    }
  }

  /**
   * A value the search would keep: it passes the filter, and its rendering
   * is a plain name component (a date under the date format).
   */
  predicate Admits(c: Criterion, v: Value) {
    Judge(c, v) == Ok(true) && Render(c.param.format, v).Ok? && NoGlobMeta(Render(c.param.format, v).value) &&
    (c.param.kind == DateKind ==> c.param.format == DateFilterDefault && v.Day? && Dates.ValidDate(v.d))
  }

  /** Templates whose literal text holds no glob wildcard and whose fields all name parameters. */
  predicate PlainTemplate(ps: seq<Piece>, params: seq<Param>) {
    forall i :: 0 <= i < |ps| ==>
      (ps[i].Text? ==> '*' !in ps[i].s && '?' !in ps[i].s) &&
      (ps[i].Var? ==> IndexOfParam(params, ps[i].name).Some?)
  }

  /** For admitted values, a formatted template's pattern matches the name the template renders. */
  lemma {:induction false} GlobPiecesSound(ps: seq<Piece>, crits: seq<Criterion>, globs: seq<string>, vals: seq<Value>)
    requires GlobTable(crits) == Ok(globs) && |vals| == |crits|
    requires forall i :: 0 <= i < |crits| ==> Admits(crits[i], vals[i])
    requires PlainTemplate(ps, ParamsOf(crits))
    ensures GlobPieces(ps, crits, globs).Ok? && RenderPieces(ps, ParamsOf(crits), vals).Ok?
    ensures GlobMatch(GlobPieces(ps, crits, globs).value, RenderPieces(ps, ParamsOf(crits), vals).value)
  {
    var params := ParamsOf(crits);
    if ps == [] {
      assert GlobMatch("", "");
    } else {
      assert PlainTemplate(ps[1..], params) by {
        forall i | 0 <= i < |ps[1..]| ensures ps[1..][i] == ps[i + 1] { }
      }
      assert PlainTemplate([ps[0]], params) by {
        assert [ps[0]][0] == ps[0];
      }
      GlobPiecesSound(ps[1..], crits, globs, vals);
      GlobPieceSound(ps[0], crits, globs, vals);
      var g0, g1 := GlobPiece(ps[0], crits, globs).value, GlobPieces(ps[1..], crits, globs).value;
      var r0, r1 := RenderPiece(ps[0], params, vals).value, RenderPieces(ps[1..], params, vals).value;
      GlobAppend(g0, r0, g1, r1);
    }
  }

  lemma {:induction false} GlobPieceSound(p: Piece, crits: seq<Criterion>, globs: seq<string>, vals: seq<Value>)
    requires GlobTable(crits) == Ok(globs) && |vals| == |crits|
    requires forall i :: 0 <= i < |crits| ==> Admits(crits[i], vals[i])
    requires PlainTemplate([p], ParamsOf(crits))
    ensures GlobPiece(p, crits, globs).Ok? && RenderPiece(p, ParamsOf(crits), vals).Ok?
    ensures GlobMatch(GlobPiece(p, crits, globs).value, RenderPiece(p, ParamsOf(crits), vals).value)
  {
    assert [p][0] == p;
    if p.Text? {
      GlobText(p.s);
    } else {
      var j := IndexOfParam(ParamsOf(crits), p.name).value;
      var c := crits[j];
      var t := Render(c.param.format, vals[j]).value;
      GlobSound(c.param.kind, c.param.format, c.values, vals[j], t);
    }
  }

  /** Pointwise matching components match once joined with `/`. */
  lemma {:induction false} GlobJoin(gs: seq<string>, ts: seq<string>)
    requires |gs| == |ts| && forall i :: 0 <= i < |gs| ==> GlobMatch(gs[i], ts[i])
    ensures GlobMatch(Text.Join(gs, '/'), Text.Join(ts, '/'))
  {
    if |gs| == 0 {
    } else if |gs| > 1 {
      GlobJoin(gs[1..], ts[1..]);
      GlobText("/");
      GlobAppend(gs[0], ts[0], "/", "/");
      GlobAppend(gs[0] + "/", ts[0] + "/", Text.Join(gs[1..], '/'), Text.Join(ts[1..], '/'));
    }
  }

  /** Every template's pattern matches its rendering. */
  lemma GlobTemplatesSound(ts: seq<seq<Piece>>, crits: seq<Criterion>, globs: seq<string>, vals: seq<Value>)
    requires GlobTable(crits) == Ok(globs) && |vals| == |crits|
    requires forall i :: 0 <= i < |crits| ==> Admits(crits[i], vals[i])
    requires forall i :: 0 <= i < |ts| ==> PlainTemplate(ts[i], ParamsOf(crits))
    ensures GlobTemplates(ts, crits, globs).Ok? && RenderTemplates(ts, ParamsOf(crits), vals).Ok?
    ensures forall i :: 0 <= i < |ts| ==>
      GlobMatch(GlobTemplates(ts, crits, globs).value[i], RenderTemplates(ts, ParamsOf(crits), vals).value[i])
  {
    forall i | 0 <= i < |ts|
      ensures GlobPieces(ts[i], crits, globs).Ok? && RenderPieces(ts[i], ParamsOf(crits), vals).Ok?
      ensures GlobMatch(GlobPieces(ts[i], crits, globs).value, RenderPieces(ts[i], ParamsOf(crits), vals).value)
    {
      GlobPiecesSound(ts[i], crits, globs, vals);
    }
    GlobsAt(ts, crits, globs);
    RendersAt(ts, ParamsOf(crits), vals);
  }

  /** The patterns of the templates are those of each template, in order. */
  lemma {:induction false} GlobsAt(ts: seq<seq<Piece>>, crits: seq<Criterion>, globs: seq<string>)
    requires |globs| == |crits|
    requires forall i :: 0 <= i < |ts| ==> GlobPieces(ts[i], crits, globs).Ok?
    ensures GlobTemplates(ts, crits, globs).Ok?
    ensures forall i :: 0 <= i < |ts| ==> GlobTemplates(ts, crits, globs).value[i] == GlobPieces(ts[i], crits, globs).value
  {
    if ts != [] {
      assert forall i :: 0 <= i < |ts[1..]| ==> ts[1..][i] == ts[i + 1];
      GlobsAt(ts[1..], crits, globs);
    }
  }

  /** The renderings of the templates are those of each template, in order. */
  lemma {:induction false} RendersAt(ts: seq<seq<Piece>>, params: seq<Param>, vals: seq<Value>)
    requires |vals| == |params|
    requires forall i :: 0 <= i < |ts| ==> RenderPieces(ts[i], params, vals).Ok?
    ensures RenderTemplates(ts, params, vals).Ok?
    ensures forall i :: 0 <= i < |ts| ==> RenderTemplates(ts, params, vals).value[i] == RenderPieces(ts[i], params, vals).value
  {
    if ts != [] {
      assert forall i :: 0 <= i < |ts[1..]| ==> ts[1..][i] == ts[i + 1];
      RendersAt(ts[1..], params, vals);
    }
  }

  /**
   * The glob never hides a file the search would keep: for values every
   * filter admits, the pattern matches the path the templates give that
   * file, as long as `os.path.join` adds a separator between every two
   * components of both.
   */
  lemma {:induction false} GlobPathSound(ts: seq<seq<Piece>>, crits: seq<Criterion>, vals: seq<Value>)
    requires |ts| >= 1 && |vals| == |crits|
    requires forall i :: 0 <= i < |crits| ==> Admits(crits[i], vals[i])
    requires forall i :: 0 <= i < |ts| ==> PlainTemplate(ts[i], ParamsOf(crits))
    requires GlobTable(crits).Ok? && GlobTemplates(ts, crits, GlobTable(crits).value).Ok?
    requires PlainParts(GlobTemplates(ts, crits, GlobTable(crits).value).value)
    requires RenderTemplates(ts, ParamsOf(crits), vals).Ok? && PlainParts(RenderTemplates(ts, ParamsOf(crits), vals).value)
    ensures GlobPath(ts, crits).Ok?
    ensures GlobMatch(GlobPath(ts, crits).value, JoinPaths(RenderTemplates(ts, ParamsOf(crits), vals).value))
  {
    var globs := GlobTable(crits).value;
    GlobTemplatesSound(ts, crits, globs, vals);
    var gs := GlobTemplates(ts, crits, globs).value;
    var rs := RenderTemplates(ts, ParamsOf(crits), vals).value;
    JoinPathsPlain(gs);
    JoinPathsPlain(rs);
    GlobJoin(gs, rs);
  }

  // ---------------------------------------------------------------------
  // The whole query: glob, then find and filter

  /**
   * `glob(pattern)` over a listing of the file system: the listed names
   * the pattern matches, in listing order.
   */
  function GlobFiles(fs: seq<string>, pattern: string): (r: seq<string>)
    ensures forall p :: p in r <==> p in fs && GlobMatch(pattern, p)
    ensures |r| <= |fs|
  {
    if fs == [] then []
    else
      var rest := GlobFiles(fs[1..], pattern);
      assert forall p :: p in fs <==> p == fs[0] || p in fs[1..];
      if GlobMatch(pattern, fs[0]) then [fs[0]] + rest else rest
  }

  /** `__find_files_and_match_params(*templates, params, regex)` on the listing `fs`. */
  method FindFilesAndMatch(templates: seq<seq<Piece>>, crits: seq<Criterion>, r: Regex, fs: seq<string>)
    returns (res: Result<Found>)
    requires |templates| >= 1
    ensures GlobPath(templates, crits).Fail? ==> res == Fail(GlobPath(templates, crits).error)
    ensures GlobPath(templates, crits).Ok? ==>
      var found := Collect(crits, r, GlobFiles(fs, GlobPath(templates, crits).value));
      (found.Fail? ==> res == Fail(found.error)) &&
      (found.Ok? ==> res.Ok? && Aligned(res.value, found.value, |crits|))
  {
    var pattern := GlobPath(templates, crits);
    if pattern.Fail? {
      return Fail(pattern.error);
    }
    var paths := GlobFiles(fs, pattern.value);
    res := FindFiles(crits, r, paths);
  }

  /**
   * Nothing the query asks for is missed: a listed file whose name the
   * templates give for values every filter admits, and which the name
   * check accepts, is among the rows the search returns (unless another
   * name makes the search raise).
   */
  lemma {:induction false} FindsEveryAdmittedFile(ts: seq<seq<Piece>>, crits: seq<Criterion>, r: Regex, fs: seq<string>, vals: seq<Value>)
    requires |ts| >= 1 && |vals| == |crits|
    requires forall i :: 0 <= i < |crits| ==> Admits(crits[i], vals[i])
    requires forall i :: 0 <= i < |ts| ==> PlainTemplate(ts[i], ParamsOf(crits))
    requires GlobTable(crits).Ok? && GlobTemplates(ts, crits, GlobTable(crits).value).Ok?
    requires PlainParts(GlobTemplates(ts, crits, GlobTable(crits).value).value)
    requires RenderTemplates(ts, ParamsOf(crits), vals).Ok? && PlainParts(RenderTemplates(ts, ParamsOf(crits), vals).value)
    requires JoinPaths(RenderTemplates(ts, ParamsOf(crits), vals).value) in fs
    requires Accepts(crits, r, JoinPaths(RenderTemplates(ts, ParamsOf(crits), vals).value), vals)
    ensures GlobPath(ts, crits).Ok?
    ensures var found := Collect(crits, r, GlobFiles(fs, GlobPath(ts, crits).value));
      found.Ok? ==> Row(JoinPaths(RenderTemplates(ts, ParamsOf(crits), vals).value), vals) in found.value
  {
    var path := JoinPaths(RenderTemplates(ts, ParamsOf(crits), vals).value);
    GlobPathSound(ts, crits, vals);
    var paths := GlobFiles(fs, GlobPath(ts, crits).value);
    assert path in paths;
    if Collect(crits, r, paths).Ok? {
      CollectComplete(crits, r, paths, path, vals);
    }
  }

  // ---------------------------------------------------------------------
  // Picking one file

  /** `__get_single_file`: the only file, with the first entry of every id list. */
  function SingleFile(f: Found): (r: Result<(string, seq<Value>)>)
    ensures |f.files| != 1 ==> r == Fail(FileNotFoundError)
    ensures |f.files| == 1 ==> (r.Ok? <==> forall k :: 0 <= k < |f.ids| ==> f.ids[k] != [])
    ensures r.Fail? && |f.files| == 1 ==> r.error == IndexError
    ensures r.Ok? ==> r.value.0 == f.files[0] && |r.value.1| == |f.ids|
    ensures r.Ok? ==> forall k :: 0 <= k < |f.ids| ==> r.value.1[k] == f.ids[k][0]
  {
    if |f.files| == 0 then Fail(FileNotFoundError)
    else if |f.files| > 1 then Fail(FileNotFoundError)
    else if exists k :: 0 <= k < |f.ids| && f.ids[k] == [] then Fail(IndexError)
    else Ok((f.files[0], seq(|f.ids|, k requires 0 <= k < |f.ids| => f.ids[k][0])))
  }

  /**
   * On what the search returns, a single file comes back exactly when one
   * name passed, together with that name's own values.
   */
  lemma {:induction false} SingleFileOfSearch(crits: seq<Criterion>, r: Regex, paths: seq<string>, f: Found)
    requires Collect(crits, r, paths).Ok? && Aligned(f, Collect(crits, r, paths).value, |crits|)
    ensures SingleFile(f).Ok? <==> |Collect(crits, r, paths).value| == 1
    ensures SingleFile(f).Fail? ==> SingleFile(f).error == FileNotFoundError
    ensures SingleFile(f).Ok? ==>
      var row := Collect(crits, r, paths).value[0];
      SingleFile(f).value == (row.path, row.vals) && row.path in paths && Accepts(crits, r, row.path, row.vals)
  {
    var rows := Collect(crits, r, paths).value;
    if |rows| == 1 {
      var row := rows[0];
      assert forall k :: 0 <= k < |f.ids| ==> f.ids[k] != [] && f.ids[k][0] == row.vals[k];
      var picked := SingleFile(f).value;
      assert picked.1 == row.vals;
      CollectSound(crits, r, paths);
      assert row in rows;
    }
  }

  /** The discovery's rule: exactly one candidate path, else FileNotFoundError. */
  function PickOne(files: seq<string>): (r: Result<string>)
    ensures r.Ok? <==> |files| == 1
    ensures r.Ok? ==> r.value == files[0]
    ensures r.Fail? ==> r.error == FileNotFoundError
  {
    if |files| == 0 then Fail(FileNotFoundError)
    else if |files| > 1 then Fail(FileNotFoundError)
    else Ok(files[0])
  }

  /** The connector's and the discovery's selection agree on the path whenever the connector finds one. */
  lemma SingleFileAgrees(f: Found)
    ensures SingleFile(f).Ok? ==> PickOne(f.files) == Ok(SingleFile(f).value.0)
    ensures PickOne(f.files).Fail? ==> SingleFile(f) == Fail(PickOne(f.files).error)
  {
  }
}
