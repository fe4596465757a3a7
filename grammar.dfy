/**
 * The product naming grammar. Every product file name is a run of
 * fixed-width fields and literals, optionally one free `.*` field (the
 * patch), more fixed-width fields, and an extension from a short list,
 * anchored at the end of the path. A product table pairs such a regular
 * expression with the `filename_format` template that writes the same
 * name, and with the filters whose formats render each field.
 *
 * This module gives the matcher (`re.search` on that shape), the
 * renderer, `__parse_filename_params`, and the generic round trip: when a
 * template agrees with its regular expression field by field, rendering
 * in-range values and parsing the name returns the same values.
 */
module Grammar {
  import opened Wrappers
  import opened Digits
  import opened Dates
  import opened Values

  // ---------------------------------------------------------------------
  // Regular expressions of the product tables

  /** What one character position of a regular expression accepts. */
  datatype CharClass =
    | Digit          // \d
    | AnyHex         // [0-9a-fA-F]
    | LowerHex       // [0-9a-f]
    | ArmLetter      // [brnm]
    | Exactly(c: char)

  predicate InClass(c: char, k: CharClass) {
    match k
    case Digit => '0' <= c <= '9'
    case AnyHex => IsHexDigit(c)
    case LowerHex => IsLowerHexDigit(c)
    case ArmLetter => c == 'b' || c == 'r' || c == 'n' || c == 'm'
    case Exactly(x) => c == x
  }

  predicate ClassesMatch(ks: seq<CharClass>, s: string) {
    |s| == |ks| && forall i {:trigger InClass(s[i], ks[i])} :: 0 <= i < |s| ==> InClass(s[i], ks[i])
  }

  function Lits(s: string): (ks: seq<CharClass>)
    ensures |ks| == |s| && forall i :: 0 <= i < |s| ==> ks[i] == Exactly(s[i])
  {
    if s == [] then [] else [Exactly(s[0])] + Lits(s[1..])
  }

  /** `k{n}`: n positions of the same class. */
  function Run(k: CharClass, n: nat): (ks: seq<CharClass>)
    ensures |ks| == n && forall i :: 0 <= i < n ==> ks[i] == k
  {
    if n == 0 then [] else [k] + Run(k, n - 1)
  }

  /** `\d{4}-\d{2}-\d{2}`, the shape of a date directory or date group. */
  const DateClasses: seq<CharClass> := Run(Digit, 4) + [Exactly('-')] + Run(Digit, 2) + [Exactly('-')] + Run(Digit, 2)

  /**
   * The parameter and group names the product tables use. A name is an
   * identifier, so two names are equal exactly when they are the same
   * constructor; `Ident` spells it out.
   */
  datatype Name =
    | PfsDesignId | Visit | Date | Arm | Spectrograph | CatId | Tract | Patch | ObjId | NVisit | PfsVisitHash

  function Ident(n: Name): string {
    match n
    case PfsDesignId => "pfsDesignId"
    case Visit => "visit"
    case Date => "date"
    case Arm => "arm"
    case Spectrograph => "spectrograph"
    case CatId => "catId"
    case Tract => "tract"
    case Patch => "patch"
    case ObjId => "objId"
    case NVisit => "nVisit"
    case PfsVisitHash => "pfsVisitHash"
  }

  /** What a fixed-width piece accepts: `k{n}`, a literal text, or the date shape. */
  datatype Shape = Repeat(k: CharClass, n: nat) | Fixed(s: string) | DateShape

  function ShapeWidth(sh: Shape): nat {
    match sh
    case Repeat(_, n) => n
    case Fixed(s) => |s|
    case DateShape => 10
  }

  function ShapeClasses(sh: Shape): (ks: seq<CharClass>)
    ensures |ks| == ShapeWidth(sh)
  {
    match sh
    case Repeat(k, n) => Run(k, n)
    case Fixed(s) => Lits(s)
    case DateShape => DateClasses
  }

  /** A fixed-width piece of a regular expression, a named group when `group` is set. */
  datatype Elem = Elem(shape: Shape, group: Option<Name>) {
    function Classes(): seq<CharClass> {
      ShapeClasses(shape)
    }
  }

  function Lit(s: string): Elem {
    Elem(Fixed(s), None)
  }

  function Group(name: Name, sh: Shape): Elem {
    Elem(sh, Some(name))
  }

  /**
   * `head (?P<free>.*) tail (ext1|ext2|...)$`, or `head (ext1|...)$` when
   * there is no free group (then `tail` is empty). Each extension includes
   * its leading dot.
   */
  datatype Regex = Regex(head: seq<Elem>, free: Option<Name>, tail: seq<Elem>, exts: seq<string>)

  function Width(es: seq<Elem>): nat {
    if es == [] then 0 else ShapeWidth(es[0].shape) + Width(es[1..])
  }

  type Captures = map<Name, string>

  /** Matching a run of fixed-width pieces against exactly `s`, collecting the named groups. */
  function MatchElems(es: seq<Elem>, s: string): (m: Option<Captures>)
    ensures m.Some? ==> |s| == Width(es)
    ensures m.Some? ==> m.value.Keys <= ElemGroups(es)
  {
    if es == [] then (if s == [] then Some(map[]) else None)
    else
      var w := ShapeWidth(es[0].shape);
      if |s| < w || !ClassesMatch(es[0].Classes(), s[..w]) then None
      else match MatchElems(es[1..], s[w..])
        case None => None
        case Some(c) => Some(if es[0].group.Some? then c[es[0].group.value := s[..w]] else c)
  }

  /** The names of the groups among `es`. */
  function ElemGroups(es: seq<Elem>): set<Name> {
    if es == [] then {} else (if es[0].group.Some? then {es[0].group.value} else {}) + ElemGroups(es[1..])
  }

  predicate IsSuffix(e: string, s: string) {
    |e| <= |s| && s[|s| - |e|..] == e
  }

  /** The extension alternative that ends `s`, tried in the order written. */
  function EndingExt(s: string, exts: seq<string>): (e: Option<string>)
    ensures e.Some? ==> e.value in exts && IsSuffix(e.value, s)
    ensures e.None? ==> forall x :: x in exts ==> !IsSuffix(x, s)
  {
    if exts == [] then None
    else if IsSuffix(exts[0], s) then Some(exts[0])
    else EndingExt(s, exts[1..])
  }

  /** No extension is a suffix of another, so at most one of them can end a name. */
  predicate ExtsExclusive(exts: seq<string>) {
    forall i, j :: 0 <= i < |exts| && 0 <= j < |exts| && i != j ==> !IsSuffix(exts[i], exts[j])
  }

  predicate HeadAt(head: seq<Elem>, s: string, i: nat)
    requires i + Width(head) <= |s|
  {
    MatchElems(head, s[i..i + Width(head)]).Some?
  }

  /** The leftmost start in `i..last` where the head matches: the start `re.search` settles on. */
  function LeftmostHead(head: seq<Elem>, s: string, i: nat, last: int): (r: Option<nat>)
    requires last + Width(head) <= |s|
    ensures r.Some? ==> i <= r.value <= last && HeadAt(head, s, r.value)
    ensures r.Some? ==> forall j: nat :: i <= j < r.value ==> !HeadAt(head, s, j)
    ensures r.None? ==> forall j: nat :: i <= j <= last ==> !HeadAt(head, s, j)
    decreases if last < i then 0 else last - i + 1
  {
    if last < i then None
    else if HeadAt(head, s, i) then Some(i)
    else LeftmostHead(head, s, i + 1, last)
  }

  lemma {:induction false} ElemGroupsAppend(a: seq<Elem>, b: seq<Elem>)
    ensures ElemGroups(a + b) == ElemGroups(a) + ElemGroups(b)
  {
    if a != [] {
      assert (a + b)[1..] == a[1..] + b;
      ElemGroupsAppend(a[1..], b);
    } else {
      assert a + b == b;
    }
  }

  lemma ElemGroupsCons(e: Elem, rest: seq<Elem>)
    ensures ElemGroups([e] + rest) == (if e.group.Some? then {e.group.value} else {}) + ElemGroups(rest)
  {
    assert ([e] + rest)[1..] == rest;
  }

  /** The names of the groups of the expression: its head, its tail and the free group. */
  function Groups(r: Regex): set<Name> {
    ElemGroups(r.head) + ElemGroups(r.tail) + (if r.free.Some? then {r.free.value} else {})
  }

  /**
   * `re.search(regex, s)` for a regular expression of the product tables.
   * The extension and the tail sit at the end of `s`; without a free group
   * the head sits right before them, and with one the match starts at the
   * leftmost place the head fits, and the free group takes everything up
   * to the tail.
   */
  function Search(r: Regex, s: string): (m: Option<Captures>)
    ensures m.Some? ==> EndingExt(s, r.exts).Some?
    ensures m.Some? && r.free.Some? ==> r.free.value in m.value
  {
    match EndingExt(s, r.exts)
    case None => None
    case Some(e) => SearchBefore(r.head, r.free, r.tail, s, |s| - |e|)
  }

  /** The part of `Search` after the extension: head, free group and tail ending exactly at `end`. */
  function SearchBefore(head: seq<Elem>, free: Option<Name>, tail: seq<Elem>, s: string, end: nat): (m: Option<Captures>)
    requires end <= |s|
    ensures m.Some? && free.Some? ==> free.value in m.value
  {
    var wt := Width(tail);
    if end < Width(head) + wt then None
    else match MatchElems(tail, s[end - wt..end])
      case None => None
      case Some(tc) =>
        if free.None? then FixedHead(head, s, end - wt, tc) else FreeHead(head, free.value, s, end - wt, tc)
  }

  /** Without a free group the head sits right before the tail, which starts at `stop`. */
  function FixedHead(head: seq<Elem>, s: string, stop: nat, tc: Captures): Option<Captures>
    requires Width(head) <= stop <= |s|
  {
    match MatchElems(head, s[stop - Width(head)..stop])
    case None => None
    case Some(hc) => Some(hc + tc)
  }

  /**
   * With a free group the match starts at the leftmost place the head fits,
   * and the free group takes everything from there up to the tail at `stop`.
   */
  function FreeHead(head: seq<Elem>, free: Name, s: string, stop: nat, tc: Captures): (m: Option<Captures>)
    requires Width(head) <= stop <= |s|
    ensures m.Some? ==> free in m.value
  {
    match LeftmostHead(head, s, 0, stop - Width(head))
    case None => None
    case Some(i) =>
      var hc := MatchElems(head, s[i..i + Width(head)]).value;
      Some((hc + tc)[free := s[i + Width(head)..stop]])
  }

  /** `re.search` only ever captures the groups the expression defines. */
  lemma SearchKeys(r: Regex, s: string)
    ensures Search(r, s).Some? ==> Search(r, s).value.Keys <= Groups(r)
  {
    if Search(r, s).Some? {
      var e := EndingExt(s, r.exts).value;
      SearchBeforeKeys(r.head, r.free, r.tail, s, |s| - |e|);
    }
  }

  lemma SearchBeforeKeys(head: seq<Elem>, free: Option<Name>, tail: seq<Elem>, s: string, end: nat)
    requires end <= |s|
    ensures var m := SearchBefore(head, free, tail, s, end);
      m.Some? ==> m.value.Keys <= ElemGroups(head) + ElemGroups(tail) + (if free.Some? then {free.value} else {})
  {
    var wt := Width(tail);
    if end >= Width(head) + wt {
      var stop := end - wt;
      var t := MatchElems(tail, s[stop..end]);
      if t.Some? {
        SearchBeforeTail(head, free, tail, s, end, stop, t.value);
        if free.None? {
          FixedHeadKeys(head, s, stop, t.value);
        } else {
          FreeHeadKeys(head, free.value, s, stop, t.value);
        }
      }
    }
  }

  lemma FixedHeadKeys(head: seq<Elem>, s: string, stop: nat, tc: Captures)
    requires Width(head) <= stop <= |s|
    ensures var m := FixedHead(head, s, stop, tc);
      m.Some? ==> m.value.Keys <= ElemGroups(head) + tc.Keys
  {
  }

  lemma FreeHeadKeys(head: seq<Elem>, free: Name, s: string, stop: nat, tc: Captures)
    requires Width(head) <= stop <= |s|
    ensures var m := FreeHead(head, free, s, stop, tc);
      m.Some? ==> m.value.Keys <= ElemGroups(head) + tc.Keys + {free}
  {
    var o := LeftmostHead(head, s, 0, stop - Width(head));
    if o.Some? {
      var hc := MatchElems(head, s[o.value..o.value + Width(head)]).value;
      assert FreeHead(head, free, s, stop, tc).value == (hc + tc)[free := s[o.value + Width(head)..stop]];
    }
  }

  // ---------------------------------------------------------------------
  // Parameters and `__parse_filename_params`

  /** One entry of a product's `params`: the group name and the filter that reads and writes it. */
  datatype Param = Param(name: Name, kind: Kind, format: Format)

  /** The position of the first parameter called `k`. */
  function IndexOfParam(params: seq<Param>, k: Name): (r: Option<nat>)
    ensures r.Some? ==> r.value < |params| && params[r.value].name == k
    ensures r.Some? ==> forall j :: 0 <= j < r.value ==> params[j].name != k
    ensures r.None? ==> forall j :: 0 <= j < |params| ==> params[j].name != k
  {
    IndexFrom(params, k, 0)
  }

  function IndexFrom(params: seq<Param>, k: Name, i: nat): (r: Option<nat>)
    requires i <= |params|
    ensures r.Some? ==> i <= r.value < |params| && params[r.value].name == k
    ensures r.Some? ==> forall j :: i <= j < r.value ==> params[j].name != k
    ensures r.None? ==> forall j :: i <= j < |params| ==> params[j].name != k
    decreases |params| - i
  {
    if i == |params| then None
    else if params[i].name == k then Some(i)
    else IndexFrom(params, k, i + 1)
  }

  /**
   * `{k: p.parse_value(match.group(k)) for k, p in params}`, in parameter
   * order: a group the regular expression does not define raises
   * IndexError, a value that does not parse raises ValueError.
   */
  function ParseParams(params: seq<Param>, caps: Captures): (r: Result<seq<Value>>)
    ensures r.Ok? <==> forall i :: 0 <= i < |params| ==>
      params[i].name in caps && ParseValue(params[i].kind, caps[params[i].name]).Ok?
    ensures r.Ok? ==> |r.value| == |params|
    ensures r.Ok? ==> forall i :: 0 <= i < |params| ==> ParseValue(params[i].kind, caps[params[i].name]) == Ok(r.value[i])
    ensures r.Fail? ==> r.error == IndexError || r.error == ValueError
  {
    if params == [] then Ok([])
    else if params[0].name !in caps then Fail(IndexError)
    else match ParseValue(params[0].kind, caps[params[0].name])
      case Fail(e) => Fail(e)
      case Ok(v) =>
        match ParseParams(params[1..], caps)
        case Fail(e) =>
          assert !(forall i :: 0 <= i < |params| ==> params[i].name in caps && ParseValue(params[i].kind, caps[params[i].name]).Ok?) by {
            var i :| 0 <= i < |params[1..]| && !(params[1..][i].name in caps && ParseValue(params[1..][i].kind, caps[params[1..][i].name]).Ok?);
            assert params[i + 1] == params[1..][i];
          }
          Fail(e)
        case Ok(vs) =>
          assert forall i :: 1 <= i < |params| ==> params[i] == params[1..][i - 1];
          Ok([v] + vs)
  }

  /** `__parse_filename_params`: a name the expression does not match raises ValueError. */
  function ParseFilename(params: seq<Param>, r: Regex, path: string): (v: Result<seq<Value>>)
    ensures Search(r, path).None? ==> v == Fail(ValueError)
    ensures Search(r, path).Some? ==> v == ParseParams(params, Search(r, path).value)
  {
    match Search(r, path)
    case None => Fail(ValueError)
    case Some(c) => ParseParams(params, c)
  }

  /** A parameter whose group the expression lacks makes every name fail to parse. */
  lemma MissingGroupNeverParses(params: seq<Param>, r: Regex, s: string, i: nat)
    requires i < |params| && params[i].name !in Groups(r)
    ensures ParseFilename(params, r, s).Fail?
  {
    SearchKeys(r, s);
  }

  // ---------------------------------------------------------------------
  // Templates: `filename_format` and `dir_format`

  /** A piece of a format template: literal text, or a `{name}` replacement field. */
  datatype Piece = Text(s: string) | Var(name: Name)

  /** A replacement field, rendered with the format of the parameter's filter; an unknown name raises KeyError. */
  function RenderVar(params: seq<Param>, vals: seq<Value>, k: Name): (r: Result<string>)
    requires |vals| == |params|
    ensures IndexOfParam(params, k).None? <==> r == Fail(KeyError)
  {
    match IndexOfParam(params, k)
    case None => Fail(KeyError)
    case Some(j) => Render(params[j].format, vals[j])
  }

  function RenderPiece(p: Piece, params: seq<Param>, vals: seq<Value>): Result<string>
    requires |vals| == |params|
  {
    match p
    case Text(s) => Ok(s)
    case Var(k) => RenderVar(params, vals, k)
  }

  /** `template.format(...)`: the pieces rendered and concatenated, the first failure propagated. */
  function RenderPieces(ps: seq<Piece>, params: seq<Param>, vals: seq<Value>): (r: Result<string>)
    requires |vals| == |params|
    ensures r.Ok? <==> forall i :: 0 <= i < |ps| ==> RenderPiece(ps[i], params, vals).Ok?
  {
    if ps == [] then Ok("")
    else match RenderPiece(ps[0], params, vals)
      case Fail(e) => Fail(e)
      case Ok(a) =>
        match RenderPieces(ps[1..], params, vals)
        case Fail(e) =>
          assert exists i :: 0 <= i < |ps| && RenderPiece(ps[i], params, vals).Fail? by {
            var i :| 0 <= i < |ps[1..]| && RenderPiece(ps[1..][i], params, vals).Fail?;
            assert ps[i + 1] == ps[1..][i];
          }
          Fail(e)
        case Ok(b) =>
          assert forall i :: 1 <= i < |ps| ==> ps[i] == ps[1..][i - 1];
          Ok(a + b)
  }

  lemma RenderPrefixOk(p: seq<Piece>, q: seq<Piece>, params: seq<Param>, vals: seq<Value>)
    requires |vals| == |params| && RenderPieces(p + q, params, vals).Ok?
    ensures RenderPieces(p, params, vals).Ok?
  {
    assert forall i :: 0 <= i < |p| ==> p[i] == (p + q)[i];
  }

  lemma {:induction false} RenderPiecesAppend(p: seq<Piece>, q: seq<Piece>, params: seq<Param>, vals: seq<Value>)
    requires |vals| == |params|
    requires RenderPieces(p, params, vals).Ok? && RenderPieces(q, params, vals).Ok?
    ensures RenderPieces(p + q, params, vals) == Ok(RenderPieces(p, params, vals).value + RenderPieces(q, params, vals).value)
  {
    if p == [] {
      assert p + q == q;
      assert "" + RenderPieces(q, params, vals).value == RenderPieces(q, params, vals).value;
    } else {
      assert (p + q)[0] == p[0] && (p + q)[1..] == p[1..] + q;
      assert RenderPiece(p[0], params, vals).Ok?;
      var a := RenderPiece(p[0], params, vals).value;
      assert RenderPieces(p[1..], params, vals).Ok? by {
        forall i | 0 <= i < |p[1..]| ensures RenderPiece(p[1..][i], params, vals).Ok? {
          assert p[1..][i] == p[i + 1];
        }
      }
      var b, c := RenderPieces(p[1..], params, vals).value, RenderPieces(q, params, vals).value;
      assert RenderPieces(p, params, vals) == Ok(a + b);
      RenderPiecesAppend(p[1..], q, params, vals);
      assert RenderPieces(p + q, params, vals) == Ok(a + (b + c));
      assert a + (b + c) == (a + b) + c;
    }
  }

  // ---------------------------------------------------------------------
  // Agreement between a template and its regular expression

  /**
   * The field shapes of the tables: `{:0Nd}` under `\d{N}`, `{:0Nx}` under
   * N hex digits, `{:%Y-%m-%d}` under the date shape, and plain string
   * fields (`arm`) under whatever single-character classes the expression
   * gives them.
   */
  predicate FieldShape(p: Param, sh: Shape) {
    p.format.prefix == "" &&
    match p.format.spec
    case Decimal(w) => p.kind == IntKind && w >= 1 && sh == Repeat(Digit, w)
    case Hexadecimal(w) => p.kind == HexKind && w >= 1 && (sh == Repeat(LowerHex, w) || sh == Repeat(AnyHex, w))
    case IsoDate => p.kind == DateKind && sh == DateShape
    case Plain => p.kind == StringKind
  }

  /** The values a field of that shape can carry: within the width, a valid date, or text of the right shape. */
  predicate Fits(p: Param, sh: Shape, v: Value) {
    match p.format.spec
    case Decimal(w) => v.Int? && 0 <= v.i < Pow(10, w)
    case Hexadecimal(w) => v.Int? && 0 <= v.i < Pow(16, w)
    case IsoDate => v.Day? && ValidDate(v.d)
    case Plain => v.Str? && ClassesMatch(ShapeClasses(sh), v.s)
  }

  predicate PieceAgrees(p: Piece, e: Elem, params: seq<Param>) {
    match p
    case Text(s) => e == Lit(s)
    case Var(k) =>
      e.group == Some(k) && IndexOfParam(params, k).Some? && FieldShape(params[IndexOfParam(params, k).value], e.shape)
  }

  /** The template pieces and the expression pieces correspond one to one. */
  predicate Agrees(ps: seq<Piece>, es: seq<Elem>, params: seq<Param>) {
    |ps| == |es| && (ps == [] || (PieceAgrees(ps[0], es[0], params) && Agrees(ps[1..], es[1..], params)))
  }

  /** The value of every field of `ps` fits the expression piece it stands under. */
  predicate ValuesFit(ps: seq<Piece>, es: seq<Elem>, params: seq<Param>, vals: seq<Value>)
    requires |vals| == |params| && Agrees(ps, es, params)
  {
    ps == [] ||
    ((ps[0].Var? ==> var j := IndexOfParam(params, ps[0].name).value; Fits(params[j], es[0].shape, vals[j]))
     && ValuesFit(ps[1..], es[1..], params, vals))
  }

  /** No name occurs twice among the parameters from position `i` on. */
  predicate DistinctFrom(params: seq<Param>, i: nat)
    requires i <= |params|
    decreases |params| - i
  {
    i == |params| || (IndexFrom(params, params[i].name, i + 1).None? && DistinctFrom(params, i + 1))
  }

  predicate NamesDistinct(params: seq<Param>) {
    DistinctFrom(params, 0)
  }

  /** Every parameter appears as a replacement field of the template. */
  predicate Covered(params: seq<Param>, t: seq<Piece>) {
    forall i :: 0 <= i < |params| ==> Var(params[i].name) in t
  }

  /** The free group is a plain string parameter. */
  predicate FreeParam(params: seq<Param>, k: Name) {
    var j := IndexOfParam(params, k);
    j.Some? && params[j.value].kind == StringKind && params[j.value].format == PlainFormat
  }

  /**
   * `t` is the template of `r`: head pieces, the free field when there is
   * one, tail pieces, then one of the extensions as literal text.
   */
  predicate TemplateAgrees(t: seq<Piece>, r: Regex, params: seq<Param>) {
    var nh, nf, nt := |r.head|, (if r.free.Some? then 1 else 0), |r.tail|;
    |t| == nh + nf + nt + 1
    && (r.free.None? ==> nt == 0)
    && Agrees(t[..nh], r.head, params)
    && (r.free.Some? ==> t[nh] == Var(r.free.value) && FreeParam(params, r.free.value))
    && Agrees(t[nh + nf..nh + nf + nt], r.tail, params)
    && t[|t| - 1].Text? && t[|t| - 1].s in r.exts
    && ExtsExclusive(r.exts)
  }

  /** The template `head-pieces {free} tail-pieces ext`, as the tables write it. */
  function Template(hp: seq<Piece>, free: Option<Name>, tp: seq<Piece>, ext: string): (t: seq<Piece>)
    ensures |t| == |hp| + (if free.Some? then 1 else 0) + |tp| + 1
  {
    hp + (if free.Some? then [Var(free.value)] else []) + tp + [Text(ext)]
  }

  /** The values fit the template: fixed fields in range, the free field a string. */
  predicate TemplateFits(t: seq<Piece>, r: Regex, params: seq<Param>, vals: seq<Value>)
    requires |vals| == |params| && TemplateAgrees(t, r, params)
  {
    var nh, nf, nt := |r.head|, (if r.free.Some? then 1 else 0), |r.tail|;
    ValuesFit(t[..nh], r.head, params, vals)
    && ValuesFit(t[nh + nf..nh + nf + nt], r.tail, params, vals)
    && (r.free.Some? ==> vals[IndexOfParam(params, r.free.value).value].Str?)
  }

  // ---------------------------------------------------------------------
  // The round trip

  /** What the captures promise: each named group re-parses to its parameter's value. */
  predicate CapsOk(caps: Captures, params: seq<Param>, vals: seq<Value>)
    requires |vals| == |params|
  {
    forall k :: k in caps ==>
      IndexOfParam(params, k).Some? &&
      ParseValue(params[IndexOfParam(params, k).value].kind, caps[k]) == Ok(vals[IndexOfParam(params, k).value])
  }

  /** An in-range value renders into its field's shape and reads back as itself. */
  lemma FieldReparses(p: Param, sh: Shape, v: Value)
    requires FieldShape(p, sh) && Fits(p, sh, v)
    ensures Render(p.format, v).Ok?
    ensures ClassesMatch(ShapeClasses(sh), Render(p.format, v).value)
    ensures ParseValue(p.kind, Render(p.format, v).value) == Ok(v)
  {
    match p.format.spec
    case Decimal(w) => DecimalReparses(p, sh, v, w);
    case Hexadecimal(w) => HexReparses(p, sh, v, w);
    case IsoDate => DateReparses(p, sh, v);
    case Plain =>
      assert Render(p.format, v) == Ok("" + v.s);
      assert "" + v.s == v.s;
  }

  lemma DecimalReparses(p: Param, sh: Shape, v: Value, w: nat)
    requires FieldShape(p, sh) && Fits(p, sh, v) && p.format.spec == Decimal(w)
    ensures Render(p.format, v).Ok?
    ensures ClassesMatch(ShapeClasses(sh), Render(p.format, v).value)
    ensures ParseValue(p.kind, Render(p.format, v).value) == Ok(v)
  {
    FormatWidth(v.i, 10, w);
    DecimalRoundTrip(v.i, w);
    assert p.format == Format("", Decimal(w));
  }

  lemma HexReparses(p: Param, sh: Shape, v: Value, w: nat)
    requires FieldShape(p, sh) && Fits(p, sh, v) && p.format.spec == Hexadecimal(w)
    ensures Render(p.format, v).Ok?
    ensures ClassesMatch(ShapeClasses(sh), Render(p.format, v).value)
    ensures ParseValue(p.kind, Render(p.format, v).value) == Ok(v)
  {
    FormatWidth(v.i, 16, w);
    HexRoundTrip(v.i, w);
    assert p.format == Format("", Hexadecimal(w));
  }

  lemma DateReparses(p: Param, sh: Shape, v: Value)
    requires FieldShape(p, sh) && Fits(p, sh, v) && p.format.spec == IsoDate
    ensures Render(p.format, v).Ok?
    ensures ClassesMatch(ShapeClasses(sh), Render(p.format, v).value)
    ensures ParseValue(p.kind, Render(p.format, v).value) == Ok(v)
  {
    DateRoundTrip(v.d);
    assert p.format == DateFilterDefault;
    DateFitsShape(v.d);
  }

  lemma DateFitsShape(d: Date)
    requires ValidDate(d)
    ensures ClassesMatch(DateClasses, FormatDate(d))
  {
    assert Pow(10, 2) == 100 && Pow(10, 4) == 10000;
    FieldRoundTrip(d.year, 4);
    FieldRoundTrip(d.month, 2);
    FieldRoundTrip(d.day, 2);
    var y, m, dd := FormatInt(d.year, 10, 4), FormatInt(d.month, 10, 2), FormatInt(d.day, 10, 2);
    ClassesConcat(Run(Digit, 4), y, [Exactly('-')], "-");
    ClassesConcat(Run(Digit, 4) + [Exactly('-')], y + "-", Run(Digit, 2), m);
    ClassesConcat(Run(Digit, 4) + [Exactly('-')] + Run(Digit, 2), y + "-" + m, [Exactly('-')], "-");
    ClassesConcat(Run(Digit, 4) + [Exactly('-')] + Run(Digit, 2) + [Exactly('-')], y + "-" + m + "-", Run(Digit, 2), dd);
  }

  lemma ClassesConcat(k1: seq<CharClass>, s1: string, k2: seq<CharClass>, s2: string)
    requires ClassesMatch(k1, s1) && ClassesMatch(k2, s2)
    ensures ClassesMatch(k1 + k2, s1 + s2)
  {
    forall i | 0 <= i < |s1 + s2| ensures InClass((s1 + s2)[i], (k1 + k2)[i]) {
      if i >= |s1| {
        assert (s1 + s2)[i] == s2[i - |s1|] && (k1 + k2)[i] == k2[i - |s1|];
      }
    }
  }

  /** A run of agreeing pieces renders to a string the expression pieces match, with good captures. */
  lemma {:induction false} ElemsRoundTrip(ps: seq<Piece>, es: seq<Elem>, params: seq<Param>, vals: seq<Value>)
    requires |vals| == |params| && Agrees(ps, es, params) && ValuesFit(ps, es, params, vals)
    ensures RenderPieces(ps, params, vals).Ok?
    ensures var m := MatchElems(es, RenderPieces(ps, params, vals).value);
      m.Some? && CapsOk(m.value, params, vals) && forall k :: Var(k) in ps ==> k in m.value
  {
    if ps != [] {
      var e := es[0];
      ElemsRoundTrip(ps[1..], es[1..], params, vals);
      var a := PieceRoundTrip(ps[0], e, params, vals);
      var b := RenderPieces(ps[1..], params, vals).value;
      assert RenderPieces(ps, params, vals) == Ok(a + b);
      var s := a + b;
      assert s[..ShapeWidth(e.shape)] == a && s[ShapeWidth(e.shape)..] == b;
      var c := MatchElems(es[1..], b).value;
      assert MatchElems(es, s) == Some(if e.group.Some? then c[e.group.value := a] else c);
      HeadOrTail(ps);
    }
  }

  /** One piece renders into text its expression piece matches, and a field's text reads back as the field's value. */
  lemma PieceRoundTrip(p: Piece, e: Elem, params: seq<Param>, vals: seq<Value>) returns (a: string)
    requires |vals| == |params| && PieceAgrees(p, e, params)
    requires p.Var? ==> var j := IndexOfParam(params, p.name).value; Fits(params[j], e.shape, vals[j])
    ensures RenderPiece(p, params, vals) == Ok(a)
    ensures ClassesMatch(e.Classes(), a)
    ensures e.group.Some? ==> p == Var(e.group.value) && IndexOfParam(params, p.name).Some?
    ensures e.group.Some? ==>
      ParseValue(params[IndexOfParam(params, p.name).value].kind, a) == Ok(vals[IndexOfParam(params, p.name).value])
  {
    match p {
      case Text(s) =>
        a := s;
      case Var(k) =>
        var j := IndexOfParam(params, k).value;
        FieldReparses(params[j], e.shape, vals[j]);
        a := Render(params[j].format, vals[j]).value;
    }
  }

  /** A piece of a non-empty sequence is its head or a piece of its tail. */
  lemma HeadOrTail(ps: seq<Piece>)
    requires ps != []
    ensures forall x :: x in ps ==> x == ps[0] || x in ps[1..]
  {
    assert ps == [ps[0]] + ps[1..];
  }

  lemma SuffixesNest(a: string, b: string, s: string)
    requires IsSuffix(a, s) && IsSuffix(b, s) && |a| <= |b|
    ensures IsSuffix(a, b)
  {
    assert b[|b| - |a|..] == s[|s| - |a|..];
  }

  /** Under exclusive extensions, the extension a name ends with is the one `EndingExt` picks. */
  lemma EndsWithExt(s: string, e: string, exts: seq<string>)
    requires ExtsExclusive(exts) && e in exts
    ensures EndingExt(s + e, exts) == Some(e)
  {
    assert (s + e)[|s + e| - |e|..] == e;
    EndingExtIs(s + e, exts, e);
  }

  lemma EndingExtIs(s: string, exts: seq<string>, e: string)
    requires ExtsExclusive(exts) && e in exts && IsSuffix(e, s)
    ensures EndingExt(s, exts) == Some(e)
  {
    var x := EndingExt(s, exts).value;
    if x != e {
      var i :| 0 <= i < |exts| && exts[i] == x;
      var j :| 0 <= j < |exts| && exts[j] == e;
      if |x| <= |e| { SuffixesNest(x, e, s); } else { SuffixesNest(e, x, s); }
      assert false;
    }
  }

  lemma ParseParamsAll(params: seq<Param>, caps: Captures, vals: seq<Value>)
    requires |vals| == |params|
    requires forall i :: 0 <= i < |params| ==>
      params[i].name in caps && ParseValue(params[i].kind, caps[params[i].name]) == Ok(vals[i])
    ensures ParseParams(params, caps) == Ok(vals)
  {
    var r := ParseParams(params, caps);
    assert r.Ok?;
    assert forall i :: 0 <= i < |params| ==> Ok(r.value[i]) == Ok(vals[i]);
    assert r.value == vals;
  }

  lemma {:induction false} DistinctIndex(params: seq<Param>, i: nat)
    requires NamesDistinct(params) && i < |params|
    ensures IndexOfParam(params, params[i].name) == Some(i)
  {
    var r := IndexOfParam(params, params[i].name);
    if r != Some(i) {
      assert r.Some? && r.value < i;
      DistinctApart(params, 0, r.value, i);
      assert false;
    }
  }

  lemma {:induction false} DistinctApart(params: seq<Param>, from: nat, j: nat, i: nat)
    requires from <= j < i < |params| && DistinctFrom(params, from)
    ensures params[j].name != params[i].name
    decreases j - from
  {
    if from < j {
      DistinctApart(params, from + 1, j, i);
    }
  }

  /** The rendered name splits into head, free text, tail and extension, each with what it promises. */
  lemma NameParts(t: seq<Piece>, r: Regex, params: seq<Param>, vals: seq<Value>) returns (h: string, f: string, tl: string, e: string)
    requires |vals| == |params| && TemplateAgrees(t, r, params) && TemplateFits(t, r, params, vals)
    ensures RenderPieces(t, params, vals) == Ok(h + f + tl + e)
    ensures e in r.exts
    ensures MatchElems(r.head, h).Some? && CapsOk(MatchElems(r.head, h).value, params, vals)
    ensures MatchElems(r.tail, tl).Some? && CapsOk(MatchElems(r.tail, tl).value, params, vals)
    ensures r.free.None? ==> f == ""
    ensures r.free.Some? ==> vals[IndexOfParam(params, r.free.value).value] == Str(f)
    ensures forall k :: Var(k) in t ==>
      k in MatchElems(r.head, h).value || k in MatchElems(r.tail, tl).value || r.free == Some(k)
  {
    var nh, nf, nt := |r.head|, (if r.free.Some? then 1 else 0), |r.tail|;
    var hp, fp, tp, last := t[..nh], t[nh..nh + nf], t[nh + nf..nh + nf + nt], [t[|t| - 1]];
    SplitFour(t, nh, nh + nf, nh + nf + nt);
    ElemsRoundTrip(hp, r.head, params, vals);
    ElemsRoundTrip(tp, r.tail, params, vals);
    h, tl := RenderPieces(hp, params, vals).value, RenderPieces(tp, params, vals).value;
    e := t[|t| - 1].s;
    TextRenders(e, params, vals);
    f := FreePart(t, r, params, vals);
    RenderPiecesAppend(hp, fp, params, vals);
    RenderPiecesAppend(hp + fp, tp, params, vals);
    RenderPiecesAppend(hp + fp + tp, last, params, vals);
    VarsCaptured(t, hp, fp, tp, last, r.free, MatchElems(r.head, h).value, MatchElems(r.tail, tl).value);
  }

  /** A sequence is its three leading slices followed by its last element. */
  lemma SplitFour<T>(t: seq<T>, a: nat, b: nat, c: nat)
    requires a <= b <= c && c + 1 == |t|
    ensures t == t[..a] + t[a..b] + t[b..c] + [t[c]]
  {
    assert t[..c] == t[..a] + t[a..b] + t[b..c];
    assert t == t[..c] + [t[c]];
  }

  /** Every field of the template is captured by the head, the tail or the free group. */
  lemma VarsCaptured(t: seq<Piece>, hp: seq<Piece>, fp: seq<Piece>, tp: seq<Piece>, last: seq<Piece>,
                     free: Option<Name>, hc: Captures, tc: Captures)
    requires t == hp + fp + tp + last && |last| == 1 && last[0].Text?
    requires fp == if free.Some? then [Var(free.value)] else []
    requires forall k :: Var(k) in hp ==> k in hc
    requires forall k :: Var(k) in tp ==> k in tc
    ensures forall k :: Var(k) in t ==> k in hc || k in tc || free == Some(k)
  {
    forall k | Var(k) in t
      ensures k in hc || k in tc || free == Some(k)
    {
      assert Var(k) in hp + fp + tp + last;
    }
  }

  lemma TextRenders(e: string, params: seq<Param>, vals: seq<Value>)
    requires |vals| == |params|
    ensures RenderPieces([Text(e)], params, vals) == Ok(e)
  {
    assert RenderPieces([Text(e)][1..], params, vals) == Ok("");
    assert e + "" == e;
  }

  /** The free field of a template renders as the string value of its parameter. */
  lemma FreePart(t: seq<Piece>, r: Regex, params: seq<Param>, vals: seq<Value>) returns (f: string)
    requires |vals| == |params| && TemplateAgrees(t, r, params) && TemplateFits(t, r, params, vals)
    ensures var nh, nf := |r.head|, (if r.free.Some? then 1 else 0);
      RenderPieces(t[nh..nh + nf], params, vals) == Ok(f)
    ensures r.free.None? ==> f == ""
    ensures r.free.Some? ==> vals[IndexOfParam(params, r.free.value).value] == Str(f)
  {
    var nh, nf := |r.head|, (if r.free.Some? then 1 else 0);
    var fp := t[nh..nh + nf];
    f := "";
    if r.free.Some? {
      var j := IndexOfParam(params, r.free.value).value;
      f := vals[j].s;
      assert RenderPiece(t[nh], params, vals) == Ok(f) by {
        assert Render(PlainFormat, vals[j]) == Ok("" + f);
        assert "" + f == f;
      }
      assert fp == [t[nh]];
      assert RenderPieces(fp[1..], params, vals) == Ok("");
      assert f + "" == f;
    } else {
      assert fp == [];
    }
  }

  /** Where `re.search` lands on a name assembled from matching parts. */
  lemma SearchParts(r: Regex, h: string, f: string, tl: string, e: string)
    requires MatchElems(r.head, h).Some? && MatchElems(r.tail, tl).Some?
    requires e in r.exts && ExtsExclusive(r.exts)
    requires r.free.None? ==> f == ""
    ensures var hc, tc := MatchElems(r.head, h).value, MatchElems(r.tail, tl).value;
      Search(r, h + f + tl + e) == Some(if r.free.None? then hc + tc else (hc + tc)[r.free.value := f])
  {
    match r.free {
      case None =>
        assert h + f + tl + e == h + tl + e;
        SearchFixedParts(r, h, tl, e);
      case Some(k) =>
        SearchFreeParts(r, k, h, f, tl, e);
    }
  }

  lemma SearchFixedParts(r: Regex, h: string, tl: string, e: string)
    requires MatchElems(r.head, h).Some? && MatchElems(r.tail, tl).Some? && r.free.None?
    requires e in r.exts && ExtsExclusive(r.exts)
    ensures Search(r, h + tl + e) == Some(MatchElems(r.head, h).value + MatchElems(r.tail, tl).value)
  {
    EndsWithExt(h + tl, e, r.exts);
    FixedBefore(r.head, r.tail, h, tl, e);
  }

  lemma FixedBefore(head: seq<Elem>, tail: seq<Elem>, h: string, tl: string, e: string)
    requires MatchElems(head, h).Some? && MatchElems(tail, tl).Some?
    ensures var s := h + tl + e;
      SearchBefore(head, None, tail, s, |s| - |e|) == Some(MatchElems(head, h).value + MatchElems(tail, tl).value)
  {
    var s := h + tl + e;
    var end := |s| - |e|;
    assert s[end - |tl|..end] == tl;
    assert s[end - |tl| - |h|..end - |tl|] == h;
  }

  lemma SearchFreeParts(r: Regex, k: Name, h: string, f: string, tl: string, e: string)
    requires MatchElems(r.head, h).Some? && MatchElems(r.tail, tl).Some? && r.free == Some(k)
    requires e in r.exts && ExtsExclusive(r.exts)
    ensures Search(r, h + f + tl + e) == Some((MatchElems(r.head, h).value + MatchElems(r.tail, tl).value)[k := f])
  {
    EndsWithExt(h + f + tl, e, r.exts);
    FourParts(h, f, tl, e);
    SearchFreeAt(r, k, h + f + tl + e, h, f, tl, e, |h|, |h| + |f|, |h| + |f| + |tl|);
  }

  /** `re.search` with a free group on a name whose head, free part, tail and extension are known slices. */
  lemma SearchFreeAt(r: Regex, k: Name, s: string, h: string, f: string, tl: string, e: string, j: nat, stop: nat, end: nat)
    requires MatchElems(r.head, h).Some? && MatchElems(r.tail, tl).Some? && r.free == Some(k)
    requires EndingExt(s, r.exts).Some? && EndingExt(s, r.exts).value == e && end + |e| == |s| && j <= stop <= end
    requires s[..j] == h && s[j..stop] == f && s[stop..end] == tl
    ensures Search(r, s) == Some((MatchElems(r.head, h).value + MatchElems(r.tail, tl).value)[k := f])
  {
    FreeBeforeFound(r.head, k, r.tail, s, end, stop, j, h, f, tl);
    SearchFreeEnd(r, k, s, e, end);
  }

  /** With a free field and a known extension, `re.search` is the search before that extension. */
  lemma SearchFreeEnd(r: Regex, k: Name, s: string, e: string, end: nat)
    requires r.free == Some(k)
    requires EndingExt(s, r.exts).Some? && EndingExt(s, r.exts).value == e && end + |e| == |s|
    ensures Search(r, s) == SearchBefore(r.head, Some(k), r.tail, s, end)
  {
    SearchAt(r, s);
  }

  /** A found capture map whose free field holds `a` holds `b` when the two are the same text. */
  lemma SomeUpdate(x: Option<Captures>, m: Captures, k: Name, a: string, b: string)
    requires x.Some? && x.value == m[k := a] && a == b
    ensures x == Some(m[k := b])
  {
  }

  /** Once the extension is known, `re.search` is the search before it. */
  lemma SearchAt(r: Regex, s: string)
    requires EndingExt(s, r.exts).Some?
    ensures Search(r, s) == SearchBefore(r.head, r.free, r.tail, s, |s| - |EndingExt(s, r.exts).value|)
  {
  }

  /** `SearchBefore` with a free field once the head is known to match at the start and the tail right before `end`. */
  lemma FreeBeforeSlices(head: seq<Elem>, free: Name, tail: seq<Elem>, s: string, end: nat, stop: nat, j: nat, h: string, tl: string)
    requires end <= |s| && j <= stop <= end
    requires s[..j] == h && s[stop..end] == tl
    requires MatchElems(head, h).Some? && MatchElems(tail, tl).Some?
    ensures SearchBefore(head, Some(free), tail, s, end).Some?
    ensures SearchBefore(head, Some(free), tail, s, end).value
      == (MatchElems(head, h).value + MatchElems(tail, tl).value)[free := s[j..stop]]
  {
    var hc, tc := MatchElems(head, h).value, MatchElems(tail, tl).value;
    assert s[0..j] == h;
    assert HeadAt(head, s, 0);
    SearchBeforeTail(head, Some(free), tail, s, end, stop, tc);
    FreeHeadAt(head, free, s, stop, tc, 0, j, hc);
  }

  /** `FreeBeforeSlices` with the free field's text named. */
  lemma FreeBeforeFound(head: seq<Elem>, free: Name, tail: seq<Elem>, s: string, end: nat, stop: nat, j: nat, h: string, f: string, tl: string)
    requires end <= |s| && j <= stop <= end
    requires s[..j] == h && s[j..stop] == f && s[stop..end] == tl
    requires MatchElems(head, h).Some? && MatchElems(tail, tl).Some?
    ensures SearchBefore(head, Some(free), tail, s, end) == Some((MatchElems(head, h).value + MatchElems(tail, tl).value)[free := f])
  {
    FreeBeforeSlices(head, free, tail, s, end, stop, j, h, tl);
    SomeUpdate(SearchBefore(head, Some(free), tail, s, end), MatchElems(head, h).value + MatchElems(tail, tl).value, free, s[j..stop], f);
  }

  /** Where each part of `h + f + tl + e` sits in it. */
  lemma FourParts(h: string, f: string, tl: string, e: string)
    ensures var s := h + f + tl + e;
      s[..|h|] == h && s[|h|..|h| + |f|] == f && s[|h| + |f|..|s| - |e|] == tl
  {
    var s := h + f + tl + e;
    assert s[..|h|] == h;
    assert s[|h|..|h| + |f|] == f;
    assert s[|h| + |f|..|s| - |e|] == tl;
  }

  /** `SearchBefore` once the tail is known to match right before `end`, from `stop` on. */
  lemma SearchBeforeTail(head: seq<Elem>, free: Option<Name>, tail: seq<Elem>, s: string, end: nat, stop: nat, tc: Captures)
    requires end <= |s| && Width(head) <= stop && stop + Width(tail) == end
    requires MatchElems(tail, s[stop..end]) == Some(tc)
    ensures SearchBefore(head, free, tail, s, end)
      == if free.None? then FixedHead(head, s, stop, tc) else FreeHead(head, free.value, s, stop, tc)
  {
  }

  /** `FreeHead` once the leftmost head is known: the head ends at `j`, and the free group runs from there to `stop`. */
  lemma FreeHeadAt(head: seq<Elem>, free: Name, s: string, stop: nat, tc: Captures, i: nat, j: nat, hc: Captures)
    requires Width(head) <= stop <= |s| && j == i + Width(head)
    requires LeftmostHead(head, s, 0, stop - Width(head)) == Some(i)
    requires j <= |s| && MatchElems(head, s[i..j]) == Some(hc)
    ensures j <= stop
    ensures FreeHead(head, free, s, stop, tc) == Some((hc + tc)[free := s[j..stop]])
  {
  }

  /**
   * The round trip of a product name: when the template agrees with the
   * expression, every parameter is a field of the template, and the values
   * fit, rendering the name and parsing it back gives the values again.
   */
  lemma NameRoundTrip(t: seq<Piece>, r: Regex, params: seq<Param>, vals: seq<Value>)
    requires |vals| == |params| && TemplateAgrees(t, r, params) && TemplateFits(t, r, params, vals)
    requires NamesDistinct(params) && Covered(params, t)
    ensures RenderPieces(t, params, vals).Ok?
    ensures ParseFilename(params, r, RenderPieces(t, params, vals).value) == Ok(vals)
  {
    var h, f, tl, e := NameParts(t, r, params, vals);
    SearchParts(r, h, f, tl, e);
    var hc, tc := MatchElems(r.head, h).value, MatchElems(r.tail, tl).value;
    var caps := if r.free.None? then hc + tc else (hc + tc)[r.free.value := f];
    CapsJoin(hc, tc, r, f, params, vals);
    assert forall i :: 0 <= i < |params| ==> params[i].name in caps;
    CapsParse(params, caps, vals);
  }

  /** Captures of the head, the tail and the free field together read back as the values. */
  lemma CapsJoin(hc: Captures, tc: Captures, r: Regex, f: string, params: seq<Param>, vals: seq<Value>)
    requires |vals| == |params| && CapsOk(hc, params, vals) && CapsOk(tc, params, vals)
    requires r.free.Some? ==> FreeParam(params, r.free.value) && vals[IndexOfParam(params, r.free.value).value] == Str(f)
    ensures CapsOk(if r.free.None? then hc + tc else (hc + tc)[r.free.value := f], params, vals)
  {
    if r.free.Some? {
      var j := IndexOfParam(params, r.free.value).value;
      assert ParseValue(params[j].kind, f) == Ok(vals[j]);
    }
  }

  /** Captures that read back as the values, with every name captured, parse to the values. */
  lemma CapsParse(params: seq<Param>, caps: Captures, vals: seq<Value>)
    requires |vals| == |params| && NamesDistinct(params) && CapsOk(caps, params, vals)
    requires forall i :: 0 <= i < |params| ==> params[i].name in caps
    ensures ParseParams(params, caps) == Ok(vals)
  {
    forall i | 0 <= i < |params|
      ensures params[i].name in caps && ParseValue(params[i].kind, caps[params[i].name]) == Ok(vals[i])
    {
      DistinctIndex(params, i);
    }
    ParseParamsAll(params, caps, vals);
  }

  /** A template assembled from pieces that agree with the expression's head and tail agrees with it. */
  lemma TemplateIntro(hp: seq<Piece>, tp: seq<Piece>, r: Regex, params: seq<Param>, ext: string)
    requires Agrees(hp, r.head, params) && Agrees(tp, r.tail, params)
    requires r.free.None? ==> r.tail == []
    requires r.free.Some? ==> FreeParam(params, r.free.value)
    requires ext in r.exts && ExtsExclusive(r.exts)
    ensures TemplateAgrees(Template(hp, r.free, tp, ext), r, params)
  {
    var t := Template(hp, r.free, tp, ext);
    var nh, nf, nt := |r.head|, (if r.free.Some? then 1 else 0), |r.tail|;
    assert t[..nh] == hp;
    assert t[nh + nf..nh + nf + nt] == tp;
  }

  /** Values that fit the head and tail pieces, and a string for the free field, fit the template. */
  lemma TemplateFitsIntro(hp: seq<Piece>, tp: seq<Piece>, r: Regex, params: seq<Param>, ext: string, vals: seq<Value>)
    requires |vals| == |params| && TemplateAgrees(Template(hp, r.free, tp, ext), r, params)
    requires Agrees(hp, r.head, params) && Agrees(tp, r.tail, params)
    requires ValuesFit(hp, r.head, params, vals) && ValuesFit(tp, r.tail, params, vals)
    requires r.free.Some? ==> vals[IndexOfParam(params, r.free.value).value].Str?
    ensures TemplateFits(Template(hp, r.free, tp, ext), r, params, vals)
  {
    var t := Template(hp, r.free, tp, ext);
    var nh, nf, nt := |r.head|, (if r.free.Some? then 1 else 0), |r.tail|;
    assert t[..nh] == hp;
    assert t[nh + nf..nh + nf + nt] == tp;
  }

  /** Agreement is piecewise, so it composes over concatenation. */
  lemma {:induction false} AgreesAppend(p1: seq<Piece>, e1: seq<Elem>, p2: seq<Piece>, e2: seq<Elem>, params: seq<Param>)
    requires Agrees(p1, e1, params) && Agrees(p2, e2, params)
    ensures Agrees(p1 + p2, e1 + e2, params)
  {
    if p1 != [] {
      AgreesAppend(p1[1..], e1[1..], p2, e2, params);
      assert (p1 + p2)[1..] == p1[1..] + p2;
      assert (e1 + e2)[1..] == e1[1..] + e2;
    } else {
      assert p1 + p2 == p2 && e1 + e2 == e2;
    }
  }

  lemma {:induction false} ValuesFitAppend(p1: seq<Piece>, e1: seq<Elem>, p2: seq<Piece>, e2: seq<Elem>, params: seq<Param>, vals: seq<Value>)
    requires |vals| == |params| && Agrees(p1, e1, params) && Agrees(p2, e2, params)
    requires ValuesFit(p1, e1, params, vals) && ValuesFit(p2, e2, params, vals)
    ensures Agrees(p1 + p2, e1 + e2, params) && ValuesFit(p1 + p2, e1 + e2, params, vals)
  {
    AgreesAppend(p1, e1, p2, e2, params);
    if p1 != [] {
      ValuesFitAppend(p1[1..], e1[1..], p2, e2, params, vals);
      assert (p1 + p2)[1..] == p1[1..] + p2;
      assert (e1 + e2)[1..] == e1[1..] + e2;
    } else {
      assert p1 + p2 == p2 && e1 + e2 == e2;
    }
  }
}
