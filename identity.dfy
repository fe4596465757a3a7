/**
 * The identity of one GA target (gapipe/config/gaobjectidentityconfig.py,
 * gatargetconfig.py and gapipelineconfig.py): its text form, the identity
 * dictionary handed to the data repository, and the enumeration of its
 * visits.
 */
module Identity {
  import opened Wrappers
  import opened Values
  import opened Digits
  import opened Grammar
  import opened Tables
  import opened TableNames
  import Sorting

  /** `GAObjectIdentityConfig`: every field may be left as None. */
  datatype ObjectIdentity = ObjectIdentity(
    catId: Option<int>, tract: Option<int>, patch: Option<string>,
    objId: Option<int>, nVisit: Option<int>, pfsVisitHash: Option<int>)

  /** `f'{patch}'`: a missing patch prints as `None`. */
  function PatchText(p: Option<string>): string {
    if p.Some? then p.value else "None"
  }

  /** All six fields are set. */
  predicate Complete(id: ObjectIdentity) {
    id.catId.Some? && id.tract.Some? && id.patch.Some? && id.objId.Some? && id.nVisit.Some? && id.pfsVisitHash.Some?
  }

  /**
   * `str(identity)`: `catId:05d-tract:05d-patch-objId:016x-nVisit:03d-0x`
   * and `pfsVisitHash:016x`. Without nVisit or the hash the method falls
   * off its end and returns None; formatting a missing integer field with
   * an integer spec is a TypeError.
   */
  function IdentityText(id: ObjectIdentity): (r: Result<Option<string>>)
    ensures (r.Ok? && r.value.None?) <==> id.nVisit.None? || id.pfsVisitHash.None?
    ensures r.Fail? <==> id.nVisit.Some? && id.pfsVisitHash.Some? && (id.catId.None? || id.tract.None? || id.objId.None?)
    ensures r.Fail? ==> r.error == TypeError
  {
    if id.nVisit.None? || id.pfsVisitHash.None? then Ok(None)
    else if id.catId.None? || id.tract.None? || id.objId.None? then Fail(TypeError)
    else Ok(Some(
      FormatInt(id.catId.value, 10, 5) + "-" + FormatInt(id.tract.value, 10, 5) + "-" + PatchText(id.patch)
      + "-" + FormatInt(id.objId.value, 16, 16) + "-" + FormatInt(id.nVisit.value, 10, 3)
      + "-0x" + FormatInt(id.pfsVisitHash.value, 16, 16)))
  }

  /** The identity as the values of a per-object product name, in parameter order. */
  function IdentityValues(id: ObjectIdentity): (vals: seq<Value>)
    requires Complete(id)
  {
    [Int(id.catId.value), Int(id.tract.value), Str(id.patch.value), Int(id.objId.value), Int(id.nVisit.value), Int(id.pfsVisitHash.value)]
  }

  /** The six fields rendered with the formats of the per-object parameters. */
  lemma IdentityFieldsRender(id: ObjectIdentity)
    requires Complete(id)
    ensures var P, vals := ObjectParams, IdentityValues(id);
      RenderVar(P, vals, CatId) == Ok(FormatInt(id.catId.value, 10, 5)) &&
      RenderVar(P, vals, Tract) == Ok(FormatInt(id.tract.value, 10, 5)) &&
      RenderVar(P, vals, Patch) == Ok(id.patch.value) &&
      RenderVar(P, vals, ObjId) == Ok(FormatInt(id.objId.value, 16, 16)) &&
      RenderVar(P, vals, NVisit) == Ok(FormatInt(id.nVisit.value, 10, 3)) &&
      RenderVar(P, vals, PfsVisitHash) == Ok(FormatInt(id.pfsVisitHash.value, 16, 16))
  {
    var P, vals := ObjectParams, IdentityValues(id);
    ObjectSlots();
    IntSlotRenders(P, vals, 0, CatId, 5, 10);
    IntSlotRenders(P, vals, 1, Tract, 5, 10);
    IntSlotRenders(P, vals, 3, ObjId, 16, 16);
    IntSlotRenders(P, vals, 4, NVisit, 3, 10);
    IntSlotRenders(P, vals, 5, PfsVisitHash, 16, 16);
    assert RenderVar(P, vals, Patch) == Render(PlainFormat, vals[2]);
  }

  /** A decimal or hexadecimal slot renders its integer with the slot's width. */
  lemma IntSlotRenders(P: seq<Param>, vals: seq<Value>, j: nat, k: Name, width: nat, base: nat)
    requires |vals| == |P| && j < |P| && vals[j].Int?
    requires base == 10 ==> Slot(P, j, IntParam(k, width))
    requires base != 10 ==> base == 16 && width == 16 && Slot(P, j, HexParam(k))
    ensures RenderVar(P, vals, k) == Ok(FormatInt(vals[j].i, base, width))
  {
    assert forall x: string :: "" + x == x;
  }

  /** One step of `RenderPieces`: the first piece, then the rest. */
  lemma RenderCons(x: Piece, rest: seq<Piece>, P: seq<Param>, vals: seq<Value>, a: string, b: string)
    requires |vals| == |P|
    requires RenderPiece(x, P, vals) == Ok(a) && RenderPieces(rest, P, vals) == Ok(b)
    ensures RenderPieces([x] + rest, P, vals) == Ok(a + b)
  {
    assert ([x] + rest)[0] == x && ([x] + rest)[1..] == rest;
  }

  lemma RenderOne(x: Piece, P: seq<Param>, vals: seq<Value>, a: string)
    requires |vals| == |P| && RenderPiece(x, P, vals) == Ok(a)
    ensures RenderPieces([x], P, vals) == Ok(a)
  {
    assert [x][1..] == [];
    assert a + "" == a;
  }

  lemma RenderTwo(x: Piece, y: Piece, P: seq<Param>, vals: seq<Value>, a: string, b: string)
    requires |vals| == |P| && RenderPiece(x, P, vals) == Ok(a) && RenderPiece(y, P, vals) == Ok(b)
    ensures RenderPieces([x, y], P, vals) == Ok(a + b)
  {
    RenderOne(y, P, vals, b);
    assert [x, y][1..] == [y];
  }

  lemma RenderThree(x: Piece, y: Piece, z: Piece, P: seq<Param>, vals: seq<Value>, a: string, b: string, c: string)
    requires |vals| == |P| && RenderPiece(x, P, vals) == Ok(a) && RenderPiece(y, P, vals) == Ok(b) && RenderPiece(z, P, vals) == Ok(c)
    ensures RenderPieces([x, y, z], P, vals) == Ok(a + (b + c))
  {
    RenderTwo(y, z, P, vals, b, c);
    assert [x, y, z][1..] == [y, z];
  }

  /** The per-object stem, for any parameter list whose fields render as the given texts. */
  lemma StemRenders(prefix: string, P: seq<Param>, vals: seq<Value>, c: string, t: string, p: string, o: string, n: string, h: string)
    requires |vals| == |P|
    requires RenderVar(P, vals, CatId) == Ok(c) && RenderVar(P, vals, Tract) == Ok(t) && RenderVar(P, vals, Patch) == Ok(p)
    requires RenderVar(P, vals, ObjId) == Ok(o) && RenderVar(P, vals, NVisit) == Ok(n) && RenderVar(P, vals, PfsVisitHash) == Ok(h)
    ensures RenderPieces(ObjectStem(prefix), P, vals) == Ok(prefix + (c + "-" + t + "-" + p + "-" + o + "-" + n + "-0x" + h))
  {
    RenderTwo(Text(prefix), Var(CatId), P, vals, prefix, c);
    RenderThree(Text("-"), Var(Tract), Text("-"), P, vals, "-", t, "-");
    RenderOne(Var(Patch), P, vals, p);
    RenderTwo(Text("-"), Var(ObjId), P, vals, "-", o);
    RenderTwo(Text("-"), Var(NVisit), P, vals, "-", n);
    RenderTwo(Text("-0x"), Var(PfsVisitHash), P, vals, "-0x", h);
    RenderPiecesAppend(CatPieces(prefix), TractPieces, P, vals);
    RenderPiecesAppend(PatchHeadPieces(prefix), [Var(Patch)], P, vals);
    RenderPiecesAppend(NVisitPieces, VisitHashPieces, P, vals);
    RenderPiecesAppend(ObjIdPieces, HashPieces, P, vals);
    RenderPiecesAppend(PatchHeadPieces(prefix) + [Var(Patch)], ObjIdPieces + HashPieces, P, vals);
    StemText(prefix, c, t, p, o, n, h);
  }

  /** The chunks of the stem, joined, are the text form behind the prefix. */
  lemma StemText(prefix: string, c: string, t: string, p: string, o: string, n: string, h: string)
    ensures (prefix + c) + ("-" + (t + "-")) + p + (("-" + o) + (("-" + n) + ("-0x" + h)))
      == prefix + (c + "-" + t + "-" + p + "-" + o + "-" + n + "-0x" + h)
  {
  }

  /**
   * The text form is the stem of every per-object product name after its
   * leading text: the per-object template renders, for any prefix, as
   * that prefix followed by `str(identity)`.
   */
  lemma IdentityIsStem(prefix: string, id: ObjectIdentity)
    requires Complete(id)
    ensures IdentityText(id).Ok? && IdentityText(id).value.Some?
    ensures RenderPieces(ObjectStem(prefix), ObjectParams, IdentityValues(id)) == Ok(prefix + IdentityText(id).value.value)
  {
    var c, t, o := FormatInt(id.catId.value, 10, 5), FormatInt(id.tract.value, 10, 5), FormatInt(id.objId.value, 16, 16);
    var n, h := FormatInt(id.nVisit.value, 10, 3), FormatInt(id.pfsVisitHash.value, 16, 16);
    IdentityFieldsRender(id);
    StemRenders(prefix, ObjectParams, IdentityValues(id), c, t, id.patch.value, o, n, h);
    CompleteText(id);
  }

  /** The text form of a complete identity, field by field. */
  lemma CompleteText(id: ObjectIdentity)
    requires Complete(id)
    ensures IdentityText(id) == Ok(Some(FormatInt(id.catId.value, 10, 5) + "-" + FormatInt(id.tract.value, 10, 5) + "-" + id.patch.value
      + "-" + FormatInt(id.objId.value, 16, 16) + "-" + FormatInt(id.nVisit.value, 10, 3) + "-0x" + FormatInt(id.pfsVisitHash.value, 16, 16)))
  {
  }

  /**
   * A per-object file name built from the text form, for an identity whose
   * fields fit their widths, reads back as that identity: so
   * `pfsGAObject-{identity}.yaml` and the `pfsGAConfig-{identity}.yaml`
   * of constants.py both name it.
   */
  lemma IdentityNameRoundTrip(prefix: string, exts: seq<string>, ext: string, id: ObjectIdentity)
    requires ext in exts && ExtsExclusive(exts)
    requires Complete(id) && ObjectValues(IdentityValues(id))
    ensures IdentityText(id).Ok? && IdentityText(id).value.Some?
    ensures ParseFilename(ObjectParams, ObjectRegex(prefix, exts), prefix + IdentityText(id).value.value + ext) == Ok(IdentityValues(id))
  {
    var vals := IdentityValues(id);
    IdentityIsStem(prefix, id);
    ObjectNameRendersStem(prefix, ext, vals);
    ObjectRoundTrip(prefix, exts, ext, vals);
  }

  // ---------------------------------------------------------------------
  // The identity dictionary

  /** The `visit` argument of `get_identity`: None, one visit, or a list of visits. */
  datatype VisitArg = NoVisit | OneVisit(v: int) | VisitList(vs: seq<int>)

  /** The keys copied from the stored identity. */
  const IdentityKeys: set<string> := {"catId", "tract", "patch", "objId"}

  type IdentityDict = map<string, Option<Value>>

  function IntEntry(o: Option<int>): Option<Value> {
    if o.Some? then Some(Int(o.value)) else None
  }

  function StrEntry(o: Option<string>): Option<Value> {
    if o.Some? then Some(Str(o.value)) else None
  }

  /** The identity dictionary of one visit: the four stored fields and the visit. */
  function VisitIdentity(id: ObjectIdentity, visit: int): (d: IdentityDict)
    ensures d.Keys == IdentityKeys + {"visit"}
    ensures d["catId"] == IntEntry(id.catId) && d["tract"] == IntEntry(id.tract)
    ensures d["patch"] == StrEntry(id.patch) && d["objId"] == IntEntry(id.objId)
    ensures d["visit"] == Some(Int(visit))
  {
    map["catId" := IntEntry(id.catId), "tract" := IntEntry(id.tract), "patch" := StrEntry(id.patch),
        "objId" := IntEntry(id.objId), "visit" := Some(Int(visit))]
  }

  /**
   * `GATargetConfig.get_identity(visit)`. A scalar visit adds the `visit`
   * key. A list of visits reads `self.observation`, which the class does
   * not have (AttributeError), and None reaches `len(None)` (TypeError).
   */
  method GetIdentity(id: ObjectIdentity, visit: VisitArg) returns (r: Result<IdentityDict>)
    ensures visit.OneVisit? ==> r == Ok(VisitIdentity(id, visit.v))
    ensures visit.VisitList? ==> r == Fail(AttributeError)
    ensures visit.NoVisit? ==> r == Fail(TypeError)
  {
    var identity: IdentityDict := map[];
    identity := identity["catId" := IntEntry(id.catId)];
    identity := identity["tract" := IntEntry(id.tract)];
    identity := identity["patch" := StrEntry(id.patch)];
    identity := identity["objId" := IntEntry(id.objId)];
    if visit.OneVisit? {
      identity := identity["visit" := Some(Int(visit.v))];
      r := Ok(identity);
    } else if visit.VisitList? {
      r := Fail(AttributeError);
    } else {
      r := Fail(TypeError);
    }
  }

  // ---------------------------------------------------------------------
  // Visit enumeration

  /** One item `(i, visit, identity)` of `enumerate_visits`. */
  datatype VisitItem = VisitItem(index: nat, visit: int, identity: IdentityDict)

  function VisitsOf(items: seq<VisitItem>): (vs: seq<int>)
    ensures |vs| == |items| && forall i :: 0 <= i < |items| ==> vs[i] == items[i].visit
  {
    if items == [] then [] else [items[0].visit] + VisitsOf(items[1..])
  }

  /**
   * `GAPipelineConfig.enumerate_visits()` over the target's observation
   * visits: one item per visit, duplicates kept, in ascending visit order,
   * numbered from 0, each carrying that visit's identity dictionary.
   */
  function EnumerateVisits(target: ObjectIdentity, visits: seq<int>): (r: seq<VisitItem>)
    ensures |r| == |visits|
    ensures Sorting.Ascending(VisitsOf(r)) && multiset(VisitsOf(r)) == multiset(visits)
    ensures forall i :: 0 <= i < |r| ==> r[i].index == i && r[i].identity == VisitIdentity(target, r[i].visit)
  {
    var s := Sorting.Sort(visits);
    var r := Numbered(target, s);
    assert VisitsOf(r) == s;
    r
  }

  /** The visits `s`, numbered from 0 in their order, each with its identity dictionary. */
  function Numbered(target: ObjectIdentity, s: seq<int>): (r: seq<VisitItem>)
    ensures |r| == |s|
    ensures forall i :: 0 <= i < |r| ==> r[i].index == i && r[i].visit == s[i] && r[i].identity == VisitIdentity(target, s[i])
  {
    seq(|s|, i requires 0 <= i < |s| => VisitItem(i, s[i], VisitIdentity(target, s[i])))
  }
}
