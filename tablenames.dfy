/**
 * What the tables promise about their names: a file name rendered from a
 * product's template, with values in range, is found by the product's
 * expression and reads back as the same values. The bare forms of the
 * dated products never yield a full identity.
 */
module TableNames {
  import opened Wrappers
  import opened Values
  import opened Grammar
  import opened Tables
  import Dates

  // ---------------------------------------------------------------------
  // The per-object names: pfsObject, pfsGAObject and the pipeline configuration

  /** Identity values of a per-object product: catId, tract, patch, objId, nVisit, pfsVisitHash. */
  predicate ObjectValues(vals: seq<Value>) {
    |vals| == 6 && Below(vals[0], Max5) && Below(vals[1], Max5) && vals[2].Str?
    && Below(vals[3], Max16) && Below(vals[4], 1000) && Below(vals[5], Max16)
  }

  lemma ObjectSlots()
    ensures Slot(ObjectParams, 0, IntParam(CatId, 5)) && Slot(ObjectParams, 1, IntParam(Tract, 5))
    ensures IndexOfParam(ObjectParams, Patch) == Some(2) && FreeParam(ObjectParams, Patch)
    ensures Slot(ObjectParams, 3, HexParam(ObjId)) && Slot(ObjectParams, 4, IntParam(NVisit, 3))
    ensures Slot(ObjectParams, 5, HexParam(PfsVisitHash))
  {
  }

  lemma ObjectDistinct()
    ensures NamesDistinct(ObjectParams)
  {
  }

  lemma ObjectCovered(prefix: string, ext: string)
    ensures Covered(ObjectParams, ObjectName(prefix, ext))
  {
    var t := ObjectName(prefix, ext);
    assert t[1] == Var(CatId) && t[3] == Var(Tract) && t[5] == Var(Patch);
    assert t[7] == Var(ObjId) && t[9] == Var(NVisit) && t[11] == Var(PfsVisitHash);
  }

  /**
   * A per-object name, rendered with in-range values and any of the
   * product's extensions, parses back to those values.
   */
  lemma ObjectRoundTrip(prefix: string, exts: seq<string>, ext: string, vals: seq<Value>)
    requires ext in exts && ExtsExclusive(exts) && ObjectValues(vals)
    ensures RenderPieces(ObjectName(prefix, ext), ObjectParams, vals).Ok?
    ensures ParseFilename(ObjectParams, ObjectRegex(prefix, exts), RenderPieces(ObjectName(prefix, ext), ObjectParams, vals).value) == Ok(vals)
  {
    var P := ObjectParams;
    ObjectSlots();
    ObjectDistinct();
    CatFits(prefix, P, vals, 0);
    TractFits(P, vals, 1);
    ObjIdFits(P, vals, 3);
    HashFits(P, vals, 4, 5);
    ValuesFitAppend(CatPieces(prefix), CatElems(prefix), TractPieces, TractElems, P, vals);
    ValuesFitAppend(ObjIdPieces, ObjIdElems, HashPieces, HashElems, P, vals);
    var r := ObjectRegex(prefix, exts);
    var hp, tp := PatchHeadPieces(prefix), ObjIdPieces + HashPieces;
    TemplateIntro(hp, tp, r, P, ext);
    TemplateFitsIntro(hp, tp, r, P, ext, vals);
    ObjectCovered(prefix, ext);
    NameRoundTrip(ObjectName(prefix, ext), r, P, vals);
  }

  /**
   * A per-object name is its stem followed by the extension, and the stems
   * of two products differ only in their leading text: the pipeline
   * configuration `pfsGAConfig-...yaml` of constants.py and the
   * `pfsGAObject-...yaml` of the table name the same object.
   */
  lemma ObjectNameStem(prefix: string, other: string, ext: string)
    ensures ObjectName(prefix, ext) == ObjectStem(prefix) + [Text(ext)]
    ensures ObjectStem(prefix)[0] == Text(prefix) && ObjectStem(prefix)[1..] == ObjectStem(other)[1..]
  {
  }

  /** Rendered, a per-object name is the rendered stem followed by the extension. */
  lemma ObjectNameRendersStem(prefix: string, ext: string, vals: seq<Value>)
    requires ObjectValues(vals)
    ensures RenderPieces(ObjectStem(prefix), ObjectParams, vals).Ok?
    ensures RenderPieces(ObjectName(prefix, ext), ObjectParams, vals)
      == Ok(RenderPieces(ObjectStem(prefix), ObjectParams, vals).value + ext)
  {
    var st := ObjectStem(prefix);
    ObjectNameStem(prefix, prefix, ext);
    assert ExtsExclusive([ext]);
    ObjectRoundTrip(prefix, [ext], ext, vals);
    RenderPrefixOk(st, [Text(ext)], ObjectParams, vals);
    TextRenders(ext, ObjectParams, vals);
    RenderPiecesAppend(st, [Text(ext)], ObjectParams, vals);
  }

  // ---------------------------------------------------------------------
  // pfsSingle

  /** Identity values of a pfsSingle: catId, tract, patch, objId, visit. */
  predicate SingleValues(vals: seq<Value>) {
    |vals| == 5 && Below(vals[0], Max5) && Below(vals[1], Max5) && vals[2].Str?
    && Below(vals[3], Max16) && Below(vals[4], Max6)
  }

  lemma SingleSlots()
    ensures Slot(SingleParams, 0, IntParam(CatId, 5)) && Slot(SingleParams, 1, IntParam(Tract, 5))
    ensures IndexOfParam(SingleParams, Patch) == Some(2) && FreeParam(SingleParams, Patch)
    ensures Slot(SingleParams, 3, HexParam(ObjId)) && Slot(SingleParams, 4, IntParam(Visit, 6))
    ensures NamesDistinct(SingleParams)
  {
  }

  /** The pfsSingle name shape, for any prefix, extension list and extension. */
  lemma SingleCovered(prefix: string, ext: string)
    ensures Covered(SingleParams, Template(PatchHeadPieces(prefix), Some(Patch), ObjIdPieces + VisitPieces, ext))
  {
    var t := Template(PatchHeadPieces(prefix), Some(Patch), ObjIdPieces + VisitPieces, ext);
    assert t[1] == Var(CatId) && t[3] == Var(Tract) && t[5] == Var(Patch) && t[7] == Var(ObjId) && t[9] == Var(Visit);
  }

  lemma SingleShapeRoundTrip(prefix: string, exts: seq<string>, ext: string, vals: seq<Value>)
    requires ext in exts && ExtsExclusive(exts) && SingleValues(vals)
    ensures var t := Template(PatchHeadPieces(prefix), Some(Patch), ObjIdPieces + VisitPieces, ext);
      var r := Regex(PatchHeadElems(prefix), Some(Patch), ObjIdElems + VisitElems, exts);
      RenderPieces(t, SingleParams, vals).Ok? && ParseFilename(SingleParams, r, RenderPieces(t, SingleParams, vals).value) == Ok(vals)
  {
    var P := SingleParams;
    var hp, tp := PatchHeadPieces(prefix), ObjIdPieces + VisitPieces;
    var t := Template(hp, Some(Patch), tp, ext);
    var r := Regex(PatchHeadElems(prefix), Some(Patch), ObjIdElems + VisitElems, exts);
    SingleSlots();
    CatFits(prefix, P, vals, 0);
    TractFits(P, vals, 1);
    ObjIdFits(P, vals, 3);
    VisitFits(P, vals, 4);
    ValuesFitAppend(CatPieces(prefix), CatElems(prefix), TractPieces, TractElems, P, vals);
    ValuesFitAppend(ObjIdPieces, ObjIdElems, VisitPieces, VisitElems, P, vals);
    TemplateIntro(hp, tp, r, P, ext);
    TemplateFitsIntro(hp, tp, r, P, ext, vals);
    SingleCovered(prefix, ext);
    NameRoundTrip(t, r, P, vals);
  }

  /** A pfsSingle name parses back to the values it was rendered from. */
  lemma SingleRoundTrip(vals: seq<Value>)
    requires SingleValues(vals)
    ensures RenderPieces(SingleName, SingleParams, vals).Ok?
    ensures ParseFilename(SingleParams, SingleRegex, RenderPieces(SingleName, SingleParams, vals).value) == Ok(vals)
  {
    FitsExtsExclusive();
    SingleShapeRoundTrip("pfsSingle-", FitsExts, ".fits", vals);
  }

  // ---------------------------------------------------------------------
  // pfsDesign and the dated pfsConfig

  lemma DesignCovered(prefix: string, ext: string)
    ensures Covered(DesignParams, Template(DesignPieces(prefix), None, [], ext))
  {
    var t := Template(DesignPieces(prefix), None, [], ext);
    assert t[1] == Var(PfsDesignId);
  }

  lemma DesignShapeRoundTrip(prefix: string, exts: seq<string>, ext: string, vals: seq<Value>)
    requires ext in exts && ExtsExclusive(exts) && |vals| == 1 && Below(vals[0], Max16)
    ensures var t := Template(DesignPieces(prefix), None, [], ext);
      var r := Regex(DesignElems(prefix), None, [], exts);
      RenderPieces(t, DesignParams, vals).Ok? && ParseFilename(DesignParams, r, RenderPieces(t, DesignParams, vals).value) == Ok(vals)
  {
    var P := DesignParams;
    var t := Template(DesignPieces(prefix), None, [], ext);
    var r := Regex(DesignElems(prefix), None, [], exts);
    assert Slot(P, 0, HexParam(PfsDesignId)) && NamesDistinct(P);
    DesignFits(prefix, P, vals, 0);
    TemplateIntro(DesignPieces(prefix), [], r, P, ext);
    TemplateFitsIntro(DesignPieces(prefix), [], r, P, ext, vals);
    DesignCovered(prefix, ext);
    NameRoundTrip(t, r, P, vals);
  }

  /** A pfsDesign name parses back to its design identifier. */
  lemma DesignRoundTrip(vals: seq<Value>)
    requires |vals| == 1 && Below(vals[0], Max16)
    ensures RenderPieces(DesignName, DesignParams, vals).Ok?
    ensures ParseFilename(DesignParams, DesignRegex, RenderPieces(DesignName, DesignParams, vals).value) == Ok(vals)
  {
    FitsExtsExclusive();
    DesignShapeRoundTrip("pfsDesign-0x", FitsExts, ".fits", vals);
  }

  /** pfsConfig identity values: pfsDesignId, visit and a valid date. */
  predicate ConfigValues(vals: seq<Value>) {
    |vals| == 3 && Below(vals[0], Max16) && Below(vals[1], Max6) && vals[2].Day? && Dates.ValidDate(vals[2].d)
  }

  lemma ConfigSlots()
    ensures Slot(ConfigParams, 0, HexParam(PfsDesignId)) && Slot(ConfigParams, 1, IntParam(Visit, 6))
    ensures Slot(ConfigParams, 2, DateParam(Date)) && NamesDistinct(ConfigParams)
  {
  }

  lemma ConfigCovered(prefix: string, ext: string)
    ensures Covered(ConfigParams, Template([Var(Date)] + DesignPieces(prefix) + VisitPieces, None, [], ext))
  {
    var t := Template([Var(Date)] + DesignPieces(prefix) + VisitPieces, None, [], ext);
    assert t[0] == Var(Date) && t[2] == Var(PfsDesignId) && t[4] == Var(Visit);
  }

  lemma ConfigShapeRoundTrip(prefix: string, exts: seq<string>, ext: string, vals: seq<Value>)
    requires ext in exts && ExtsExclusive(exts) && ConfigValues(vals)
    ensures var t := Template([Var(Date)] + DesignPieces(prefix) + VisitPieces, None, [], ext);
      var r := Regex([Group(Date, DateShape)] + DesignElems(prefix) + VisitElems, None, [], exts);
      RenderPieces(t, ConfigParams, vals).Ok? && ParseFilename(ConfigParams, r, RenderPieces(t, ConfigParams, vals).value) == Ok(vals)
  {
    var P := ConfigParams;
    var hp := [Var(Date)] + DesignPieces(prefix);
    var t := Template(hp + VisitPieces, None, [], ext);
    var r := Regex([Group(Date, DateShape)] + DesignElems(prefix) + VisitElems, None, [], exts);
    ConfigSlots();
    DateFits(P, vals, 2);
    DesignFits(prefix, P, vals, 0);
    VisitFits(P, vals, 1);
    ValuesFitAppend([Var(Date)], [Group(Date, DateShape)], DesignPieces(prefix), DesignElems(prefix), P, vals);
    ValuesFitAppend(hp, [Group(Date, DateShape)] + DesignElems(prefix), VisitPieces, VisitElems, P, vals);
    TemplateIntro(hp + VisitPieces, [], r, P, ext);
    TemplateFitsIntro(hp + VisitPieces, [], r, P, ext, vals);
    ConfigCovered(prefix, ext);
    NameRoundTrip(t, r, P, vals);
  }

  /** The date directory with a pfsConfig name under it parses back under the dated expression. */
  lemma ConfigDatedRoundTrip(vals: seq<Value>)
    requires ConfigValues(vals)
    ensures RenderPieces(ConfigDatedName, ConfigParams, vals).Ok?
    ensures ParseFilename(ConfigParams, ConfigDatedRegex, RenderPieces(ConfigDatedName, ConfigParams, vals).value) == Ok(vals)
  {
    FitsExtsExclusive();
    ConfigShapeRoundTrip("/pfsConfig-0x", FitsExts, ".fits", vals);
  }

  // ---------------------------------------------------------------------
  // The work directory names

  /** Identity values of a pipeline run: catId, objId, nVisit, pfsVisitHash. */
  predicate WorkValues(vals: seq<Value>) {
    |vals| == 4 && Below(vals[0], Max5) && Below(vals[1], Max16) && Below(vals[2], 1000) && Below(vals[3], Max16)
  }

  lemma WorkSlots()
    ensures Slot(WorkParams, 0, IntParam(CatId, 5)) && Slot(WorkParams, 1, HexParam(ObjId))
    ensures Slot(WorkParams, 2, IntParam(NVisit, 3)) && Slot(WorkParams, 3, HexParam(PfsVisitHash))
    ensures NamesDistinct(WorkParams)
  {
  }

  lemma WorkCovered(prefix: string, ext: string)
    ensures Covered(WorkParams, Template(CatPieces(prefix) + ObjIdPieces + HashPieces, None, [], ext))
  {
    var t := Template(CatPieces(prefix) + ObjIdPieces + HashPieces, None, [], ext);
    assert t[1] == Var(CatId) && t[3] == Var(ObjId) && t[5] == Var(NVisit) && t[7] == Var(PfsVisitHash);
  }

  lemma WorkShapeRoundTrip(prefix: string, exts: seq<string>, ext: string, vals: seq<Value>)
    requires ext in exts && ExtsExclusive(exts) && WorkValues(vals)
    ensures var t := Template(CatPieces(prefix) + ObjIdPieces + HashPieces, None, [], ext);
      var r := Regex(CatElems(prefix) + ObjIdElems + HashElems, None, [], exts);
      RenderPieces(t, WorkParams, vals).Ok? && ParseFilename(WorkParams, r, RenderPieces(t, WorkParams, vals).value) == Ok(vals)
  {
    var P := WorkParams;
    var hp := CatPieces(prefix) + ObjIdPieces;
    var t := Template(hp + HashPieces, None, [], ext);
    var r := Regex(CatElems(prefix) + ObjIdElems + HashElems, None, [], exts);
    WorkSlots();
    CatFits(prefix, P, vals, 0);
    ObjIdFits(P, vals, 1);
    HashFits(P, vals, 2, 3);
    ValuesFitAppend(CatPieces(prefix), CatElems(prefix), ObjIdPieces, ObjIdElems, P, vals);
    ValuesFitAppend(hp, CatElems(prefix) + ObjIdElems, HashPieces, HashElems, P, vals);
    TemplateIntro(hp + HashPieces, [], r, P, ext);
    TemplateFitsIntro(hp + HashPieces, [], r, P, ext, vals);
    WorkCovered(prefix, ext);
    NameRoundTrip(t, r, P, vals);
  }

  /** A work directory name, configuration or result, parses back to the run identity. */
  lemma WorkRoundTrip(exts: seq<string>, ext: string, vals: seq<Value>)
    requires ext in exts && ExtsExclusive(exts) && WorkValues(vals)
    ensures RenderPieces(WorkName(ext), WorkParams, vals).Ok?
    ensures ParseFilename(WorkParams, WorkRegex(exts), RenderPieces(WorkName(ext), WorkParams, vals).value) == Ok(vals)
  {
    WorkShapeRoundTrip("pfsGAObject-", exts, ext, vals);
  }

  lemma CatalogSlots()
    ensures Slot(CatalogParams, 0, IntParam(CatId, 5)) && Slot(CatalogParams, 1, IntParam(NVisit, 3))
    ensures Slot(CatalogParams, 2, HexParam(PfsVisitHash)) && NamesDistinct(CatalogParams)
  {
  }

  lemma CatalogCovered(prefix: string, ext: string)
    ensures Covered(CatalogParams, Template(CatPieces(prefix) + HashPieces, None, [], ext))
  {
    var t := Template(CatPieces(prefix) + HashPieces, None, [], ext);
    assert t[1] == Var(CatId) && t[3] == Var(NVisit) && t[5] == Var(PfsVisitHash);
  }

  lemma CatalogShapeRoundTrip(prefix: string, exts: seq<string>, ext: string, vals: seq<Value>)
    requires ext in exts && ExtsExclusive(exts)
    requires |vals| == 3 && Below(vals[0], Max5) && Below(vals[1], 1000) && Below(vals[2], Max16)
    ensures var t := Template(CatPieces(prefix) + HashPieces, None, [], ext);
      var r := Regex(CatElems(prefix) + HashElems, None, [], exts);
      RenderPieces(t, CatalogParams, vals).Ok? && ParseFilename(CatalogParams, r, RenderPieces(t, CatalogParams, vals).value) == Ok(vals)
  {
    var P := CatalogParams;
    var hp := CatPieces(prefix) + HashPieces;
    var t := Template(hp, None, [], ext);
    var r := Regex(CatElems(prefix) + HashElems, None, [], exts);
    CatalogSlots();
    CatFits(prefix, P, vals, 0);
    HashFits(P, vals, 1, 2);
    ValuesFitAppend(CatPieces(prefix), CatElems(prefix), HashPieces, HashElems, P, vals);
    TemplateIntro(hp, [], r, P, ext);
    TemplateFitsIntro(hp, [], r, P, ext, vals);
    CatalogCovered(prefix, ext);
    NameRoundTrip(t, r, P, vals);
  }

  /** A catalog name parses back to catId, nVisit and the visit hash. */
  lemma CatalogRoundTrip(vals: seq<Value>)
    requires |vals| == 3 && Below(vals[0], Max5) && Below(vals[1], 1000) && Below(vals[2], Max16)
    ensures RenderPieces(CatalogName, CatalogParams, vals).Ok?
    ensures ParseFilename(CatalogParams, CatalogRegex, RenderPieces(CatalogName, CatalogParams, vals).value) == Ok(vals)
  {
    FitsExtsExclusive();
    CatalogShapeRoundTrip("pfsGACatalog-", FitsExts, ".fits", vals);
  }

  // ---------------------------------------------------------------------
  // The bare forms of the dated products

  lemma NoDateGroup()
    ensures Date !in Groups(ConfigBareRegex) && Date !in Groups(ArmBareRegex) && Date !in Groups(MergedBareRegex)
  {
    var v := Group(Visit, Digits6);
    ElemGroupsCons(v, []);
    ElemGroupsCons(Lit("-"), [v]);
    assert VisitElems == [Lit("-")] + [v];
    ElemGroupsCons(Group(PfsDesignId, AnyHex16), []);
    ElemGroupsCons(Lit("pfsConfig-0x"), [Group(PfsDesignId, AnyHex16)]);
    assert DesignElems("pfsConfig-0x") == [Lit("pfsConfig-0x")] + [Group(PfsDesignId, AnyHex16)];
    ElemGroupsAppend(DesignElems("pfsConfig-0x"), VisitElems);
    ArmGroups();
    ElemGroupsCons(Lit("pfsMerged-"), [v]);
    assert MergedBareRegex.head == [Lit("pfsMerged-")] + [v];
  }

  lemma ArmGroups()
    ensures ElemGroups(ArmElems) == {Visit, Arm, Spectrograph}
  {
    var s := Group(Spectrograph, Repeat(Digit, 1));
    var a := Group(Arm, Repeat(ArmLetter, 1));
    var v := Group(Visit, Digits6);
    ElemGroupsCons(s, []);
    ElemGroupsCons(a, [s]);
    ElemGroupsCons(Lit("-"), [a, s]);
    ElemGroupsCons(v, [Lit("-"), a, s]);
    ElemGroupsCons(Lit("pfsArm-"), [v, Lit("-"), a, s]);
    assert ArmElems == [Lit("pfsArm-")] + [v, Lit("-"), a, s];
    assert [v, Lit("-"), a, s] == [v] + [Lit("-"), a, s];
    assert [Lit("-"), a, s] == [Lit("-")] + [a, s];
    assert [a, s] == [a] + [s];
    assert [s] == [s] + [];
  }

  /**
   * The expressions without a date directory still list `date` among the
   * parameters to read, so a name they match fails on the missing group:
   * only the dated forms ever yield an identity.
   */
  lemma BareFormsNeverParse(s: string)
    ensures ParseFilename(ConfigParams, ConfigBareRegex, s).Fail?
    ensures ParseFilename(ArmParams, ArmBareRegex, s).Fail?
    ensures ParseFilename(MergedParams, MergedBareRegex, s).Fail?
  {
    NoDateGroup();
    assert ConfigParams[2].name == Date && ArmParams[3].name == Date && MergedParams[1].name == Date;
    MissingGroupNeverParses(ConfigParams, ConfigBareRegex, s, 2);
    MissingGroupNeverParses(ArmParams, ArmBareRegex, s, 3);
    MissingGroupNeverParses(MergedParams, MergedBareRegex, s, 1);
  }

  // ---------------------------------------------------------------------
  // The table entries

  /** The file name of an entry parses back under the entry's first expression. */
  predicate EntryRoundTrips(e: Product, vals: seq<Value>) {
    |vals| == |e.params| && |e.regexes| > 0 && RenderPieces(e.filenameFormat, e.params, vals).Ok?
    && ParseFilename(e.params, e.regexes[0], RenderPieces(e.filenameFormat, e.params, vals).value) == Ok(vals)
  }

  /** Any per-object FITS entry, whatever its root and product name. */
  lemma ObjectEntryRoundTrips(root: string, product: string, vals: seq<Value>)
    requires ObjectValues(vals)
    ensures EntryRoundTrips(ObjectEntry(root, product), vals)
  {
    FitsExtsExclusive();
    ObjectRoundTrip(product + "-", FitsExts, ".fits", vals);
  }

  lemma GA1DConfigEntryRoundTrips(vals: seq<Value>)
    requires ObjectValues(vals)
    ensures EntryRoundTrips(GA1DConfigEntry, vals)
  {
    FitsExtsExclusive();
    ObjectRoundTrip("pfsGAObject-", [".yaml"], ".yaml", vals);
  }

  lemma FileSystemObjectEntries()
    ensures FileSystemConfig.products[PfsObject] == ObjectEntry("$datadir/rerun/$rerundir/", "pfsObject")
    ensures FileSystemConfig.products[PfsGAObject] == ObjectEntry("$datadir/rerun/$rerundir/", "pfsGAObject")
    ensures FileSystemConfig.products[GA1DPipelineConfig] == GA1DConfigEntry
  {
  }

  /** The other named entries of `FileSystemConfig`, and the entries the older table shares with it. */
  lemma FileSystemNamedEntries()
    ensures FileSystemConfig.products[PfsDesign].params == DesignParams
    ensures FileSystemConfig.products[PfsDesign].regexes == [DesignRegex]
    ensures FileSystemConfig.products[PfsDesign].filenameFormat == DesignName
    ensures FileSystemConfig.products[PfsConfig].params == ConfigParams
    ensures FileSystemConfig.products[PfsConfig].regexes == [ConfigDatedRegex, ConfigBareRegex]
    ensures FileSystemConfig.products[PfsSingle].params == SingleParams
    ensures FileSystemConfig.products[PfsSingle].regexes == [SingleRegex]
    ensures FileSystemConfig.products[PfsSingle].filenameFormat == SingleName
  {
  }

  /**
   * The older table names its files as `FileSystemConfig` does; only the
   * directories differ, being relative to its root.
   */
  lemma OldTableKeys()
    ensures OldConfigTable.products.Keys == {PfsDesign, PfsConfig, PfsSingle, PfsObject}
  {
  }

  lemma OldTableAgrees()
    ensures forall p :: p in OldConfigTable.products ==>
      p in FileSystemConfig.products
      && OldConfigTable.products[p].params == FileSystemConfig.products[p].params
      && OldConfigTable.products[p].regexes == FileSystemConfig.products[p].regexes
      && OldConfigTable.products[p].filenameFormat == FileSystemConfig.products[p].filenameFormat
  {
    var o, n := OldConfigTable.products, FileSystemConfig.products;
    assert o[PfsObject].regexes == n[PfsObject].regexes;
    assert o[PfsObject].filenameFormat == n[PfsObject].filenameFormat;
  }
}
