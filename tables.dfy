/**
 * The product tables: `FileSystemConfig` (data/filesystemconfig.py), the
 * older `config` table (data/config.py), `GAPipeWorkdirConfig`
 * (repo/gapipeworkdirconfig.py), the `PfsFileSystemConfig` extension
 * (repo/pfsfilesystemconfig.py) and the format strings of constants.py.
 * Each entry names its parameters with the filters that read and write
 * them, its regular expressions, and its directory and file name
 * templates.
 *
 * Every template and expression is assembled from a few shared pieces
 * (`catId`, `tract`, `objId`, `visit`, the visit hash), each given with
 * the expression pieces it stands under, so the agreement of a whole
 * table entry follows from the agreement of its pieces.
 */
module Tables {
  import opened Wrappers
  import opened Digits
  import Dates
  import opened Values
  import opened Grammar

  datatype ProductType =
    | PfsDesign | PfsConfig | PfsArm | PfsMerged | PfsSingle | PfsObject | PfsGAObject
    | GA1DPipelineConfig | GAPipelineConfig | PfsGACatalog

  datatype Product = Product(params: seq<Param>, regexes: seq<Regex>, dirFormat: seq<Piece>, filenameFormat: seq<Piece>)

  /** A product table: the root, the path variables and what they expand from, the products. */
  datatype Table = Table(root: string, variables: map<string, string>, products: map<ProductType, Product>)

  // ---------------------------------------------------------------------
  // Parameters, as the tables declare their filters

  function IntParam(name: Name, width: nat): Param {
    Param(name, IntKind, Format("", Decimal(width)))
  }

  function HexParam(name: Name): Param {
    Param(name, HexKind, Format("", Hexadecimal(16)))
  }

  function StrParam(name: Name): Param {
    Param(name, StringKind, PlainFormat)
  }

  function DateParam(name: Name): Param {
    Param(name, DateKind, DateFilterDefault)
  }

  const FitsExts: seq<string> := [".fits", ".fits.gz"]

  const Digits5 := Repeat(Digit, 5)
  const Digits6 := Repeat(Digit, 6)
  const Hex16 := Repeat(LowerHex, 16)
  const AnyHex16 := Repeat(AnyHex, 16)

  // ---------------------------------------------------------------------
  // The shared pieces: template pieces and the expression pieces under them

  /** `prefix{catId}` over `prefix(?P<catId>\d{5})`. */
  function CatPieces(prefix: string): seq<Piece> { [Text(prefix), Var(CatId)] }
  function CatElems(prefix: string): seq<Elem> { [Lit(prefix), Group(CatId, Digits5)] }

  /** `-{tract}-`, the text up to the free patch. */
  const TractPieces := [Text("-"), Var(Tract), Text("-")]
  const TractElems := [Lit("-"), Group(Tract, Digits5), Lit("-")]

  /** `-{objId}`, 16 lower-case hex digits. */
  const ObjIdPieces := [Text("-"), Var(ObjId)]
  const ObjIdElems := [Lit("-"), Group(ObjId, Hex16)]

  /** `-{visit}`, six digits. */
  const VisitPieces := [Text("-"), Var(Visit)]
  const VisitElems := [Lit("-"), Group(Visit, Digits6)]

  /** `-{nVisit}-0x{pfsVisitHash}`. */
  const HashPieces := NVisitPieces + VisitHashPieces
  const HashElems := NVisitElems + VisitHashElems
  const NVisitPieces := [Text("-"), Var(NVisit)]
  const NVisitElems := [Lit("-"), Group(NVisit, Repeat(Digit, 3))]
  const VisitHashPieces := [Text("-0x"), Var(PfsVisitHash)]
  const VisitHashElems := [Lit("-0x"), Group(PfsVisitHash, Hex16)]

  /** `prefix{pfsDesignId}` over 16 hex digits of either case. */
  function DesignPieces(prefix: string): seq<Piece> { [Text(prefix), Var(PfsDesignId)] }
  function DesignElems(prefix: string): seq<Elem> { [Lit(prefix), Group(PfsDesignId, AnyHex16)] }

  // ---------------------------------------------------------------------
  // FileSystemConfig (data/filesystemconfig.py)

  const DesignParams := [HexParam(PfsDesignId)]
  const DesignRegex := Regex(DesignElems("pfsDesign-0x"), None, [], FitsExts)
  const DesignName := Template(DesignPieces("pfsDesign-0x"), None, [], ".fits")

  const ConfigParams := [HexParam(PfsDesignId), IntParam(Visit, 6), DateParam(Date)]
  /** The dated form: a `YYYY-MM-DD/` directory captured as `date`, then the file name. */
  const ConfigDatedRegex := Regex([Group(Date, DateShape)] + DesignElems("/pfsConfig-0x") + VisitElems, None, [], FitsExts)
  /** The bare form: the file name alone, with no `date` group. */
  const ConfigBareRegex := Regex(DesignElems("pfsConfig-0x") + VisitElems, None, [], FitsExts)
  const ConfigName := Template(DesignPieces("pfsConfig-0x") + VisitPieces, None, [], ".fits")
  /** The date directory and the file name together, the text the dated form reads. */
  const ConfigDatedName := Template([Var(Date)] + DesignPieces("/pfsConfig-0x") + VisitPieces, None, [], ".fits")

  const ArmParams := [IntParam(Visit, 6), StrParam(Arm), IntParam(Spectrograph, 1), DateParam(Date)]
  /** `pfsArm-{visit}-(?P<arm>[brnm])(?P<spectrograph>\d)`. */
  const ArmElems := [Lit("pfsArm-"), Group(Visit, Digits6), Lit("-"), Group(Arm, Repeat(ArmLetter, 1)), Group(Spectrograph, Repeat(Digit, 1))]
  /** `{date}/v(\d{6})/` before the name; the visit directory is not a named group. */
  const ArmDatedRegex := Regex([Group(Date, DateShape), Lit("/v"), Elem(Digits6, None), Lit("/")] + ArmElems, None, [], FitsExts)
  const ArmBareRegex := Regex(ArmElems, None, [], FitsExts)
  const ArmName := [Text("pfsArm-"), Var(Visit), Text("-"), Var(Arm), Var(Spectrograph), Text(".fits")]

  const MergedParams := [IntParam(Visit, 6), DateParam(Date)]
  const MergedDatedRegex := Regex(
    [Group(Date, DateShape), Lit("/v"), Elem(Digits6, None), Lit("/pfsMerged-"), Group(Visit, Digits6)], None, [], FitsExts)
  const MergedBareRegex := Regex([Lit("pfsMerged-"), Group(Visit, Digits6)], None, [], FitsExts)
  const MergedName := [Text("pfsMerged-"), Var(Visit), Text(".fits")]

  /** catId, tract, patch and objId lead both per-object parameter lists. */
  const SingleParams := [IntParam(CatId, 5), IntParam(Tract, 5), StrParam(Patch), HexParam(ObjId), IntParam(Visit, 6)]
  const ObjectParams := [IntParam(CatId, 5), IntParam(Tract, 5), StrParam(Patch), HexParam(ObjId),
                         IntParam(NVisit, 3), HexParam(PfsVisitHash)]

  /** `prefix{catId}-{tract}-`, the head of every name with a patch. */
  function PatchHeadPieces(prefix: string): seq<Piece> { CatPieces(prefix) + TractPieces }
  function PatchHeadElems(prefix: string): seq<Elem> { CatElems(prefix) + TractElems }

  /** `pfsSingle-{catId}-{tract}-{patch}-{objId}-{visit}`. */
  const SingleRegex := Regex(PatchHeadElems("pfsSingle-"), Some(Patch), ObjIdElems + VisitElems, FitsExts)
  const SingleName := Template(PatchHeadPieces("pfsSingle-"), Some(Patch), ObjIdPieces + VisitPieces, ".fits")

  /** `prefix{catId}-{tract}-{patch}-{objId}-{nVisit}-0x{pfsVisitHash}` with one of `exts`. */
  function ObjectRegex(prefix: string, exts: seq<string>): Regex {
    Regex(PatchHeadElems(prefix), Some(Patch), ObjIdElems + HashElems, exts)
  }

  function ObjectName(prefix: string, ext: string): seq<Piece> {
    Template(PatchHeadPieces(prefix), Some(Patch), ObjIdPieces + HashPieces, ext)
  }

  /** The file name without its extension. */
  function ObjectStem(prefix: string): seq<Piece> {
    PatchHeadPieces(prefix) + [Var(Patch)] + (ObjIdPieces + HashPieces)
  }

  /** The directory part shared by the per-object products: `{catId}/{tract}/{patch}`. */
  const ObjectDirTail := [Var(CatId), Text("/"), Var(Tract), Text("/"), Var(Patch)]

  /** A per-object product stored as FITS under `root{product}/{catId}/{tract}/{patch}`. */
  function ObjectEntry(root: string, product: string): Product {
    Product(ObjectParams, [ObjectRegex(product + "-", FitsExts)], [Text(root + product + "/")] + ObjectDirTail, ObjectName(product + "-", ".fits"))
  }

  const GA1DConfigDir := [Text("$workdir/rerun/$rerundir/pfsGAObject/")] + ObjectDirTail + [Text("/")] + ObjectStem("pfsGAObject-")

  const GA1DConfigEntry := Product(ObjectParams, [ObjectRegex("pfsGAObject-", [".yaml"])], GA1DConfigDir, ObjectName("pfsGAObject-", ".yaml"))

  /** The three path variables of the tables that write under the work directory. */
  const WorkVariables := map["workdir" := "$GAPIPE_WORKDIR", "datadir" := "$GAPIPE_DATADIR", "rerundir" := "$GAPIPE_RERUNDIR"]

  const FileSystemConfig := Table(
    "$datadir",
    WorkVariables,
    map[
      PfsDesign := Product(DesignParams, [DesignRegex], [Text("$datadir/pfsDesign")], DesignName),
      PfsConfig := Product(ConfigParams, [ConfigDatedRegex, ConfigBareRegex],
                           [Text("$datadir/pfsConfig/"), Var(Date), Text("/")], ConfigName),
      PfsArm := Product(ArmParams, [ArmDatedRegex, ArmBareRegex],
                        [Text("$datadir/rerun/$rerundir/pfsArm/"), Var(Date), Text("/v"), Var(Visit), Text("/")], ArmName),
      PfsMerged := Product(MergedParams, [MergedDatedRegex, MergedBareRegex],
                           [Text("$datadir/rerun/$rerundir/pfsMerged/"), Var(Date), Text("/v"), Var(Visit), Text("/")], MergedName),
      PfsSingle := Product(SingleParams, [SingleRegex],
                           [Text("$datadir/rerun/$rerundir/pfsSingle/")] + ObjectDirTail, SingleName),
      PfsObject := ObjectEntry("$datadir/rerun/$rerundir/", "pfsObject"),
      PfsGAObject := ObjectEntry("$datadir/rerun/$rerundir/", "pfsGAObject"),
      GA1DPipelineConfig := GA1DConfigEntry
    ])

  // ---------------------------------------------------------------------
  // The older table (data/config.py): directories relative to the root

  const OldConfigTable := Table(
    "",
    map["root" := "$GAPIPE_DATADIR", "rerun" := "$GAPIPE_RERUNDIR"],
    map[
      PfsDesign := Product(DesignParams, [DesignRegex], [Text("pfsDesign")], DesignName),
      PfsConfig := Product(ConfigParams, [ConfigDatedRegex, ConfigBareRegex], [Text("pfsConfig/"), Var(Date), Text("/")], ConfigName),
      PfsSingle := Product(SingleParams, [SingleRegex], [Text("rerun/$rerun/pfsSingle/")] + ObjectDirTail, SingleName),
      PfsObject := ObjectEntry("rerun/$rerun/", "pfsObject")
    ])

  // ---------------------------------------------------------------------
  // GAPipeWorkdirConfig (repo/gapipeworkdirconfig.py)

  /** The identity of a pipeline run without tract and patch. */
  const WorkParams := [IntParam(CatId, 5), HexParam(ObjId), IntParam(NVisit, 3), HexParam(PfsVisitHash)]
  const CatalogParams := [IntParam(CatId, 5), IntParam(NVisit, 3), HexParam(PfsVisitHash)]
  const ExtractedSingleParams := [IntParam(CatId, 5), HexParam(ObjId), IntParam(Visit, 6)]

  /** `pfsGAObject-{catId}-{objId}-{nVisit}-0x{pfsVisitHash}` with one of `exts`, no free group. */
  function WorkRegex(exts: seq<string>): Regex {
    Regex(CatElems("pfsGAObject-") + ObjIdElems + HashElems, None, [], exts)
  }

  function WorkName(ext: string): seq<Piece> {
    Template(CatPieces("pfsGAObject-") + ObjIdPieces + HashPieces, None, [], ext)
  }

  /** `root/$rerundir/pfsGAObject/{catId}/{objId}-{nVisit}-0x{pfsVisitHash}`. */
  function WorkDir(root: string): seq<Piece> {
    [Text(root + "/$rerundir/pfsGAObject/"), Var(CatId), Text("/"), Var(ObjId)] + HashPieces
  }

  const CatalogRegex := Regex(CatElems("pfsGACatalog-") + HashElems, None, [], FitsExts)
  const CatalogName := Template(CatPieces("pfsGACatalog-") + HashPieces, None, [], ".fits")

  const GAPipeWorkdirConfig := Table(
    "$datadir",
    map["workdir" := "$GAPIPE_WORKDIR", "outdir" := "$GAPIPE_OUTDIR", "datadir" := "$GAPIPE_DATADIR", "rerundir" := "$GAPIPE_RERUNDIR"],
    map[
      PfsSingle := Product(ExtractedSingleParams, [],
                           [Text("$workdir/$rerundir/pfsSingle/"), Var(CatId), Text("/"), Var(ObjId)],
                           CatPieces("pfsSingle-") + ObjIdPieces + VisitPieces + [Text(".fits")]),
      GAPipelineConfig := Product(WorkParams, [WorkRegex([".yaml"])], WorkDir("$workdir"), WorkName(".yaml")),
      PfsGAObject := Product(WorkParams, [WorkRegex([".fits"])], WorkDir("$outdir"), WorkName(".fits")),
      PfsGACatalog := Product(CatalogParams, [CatalogRegex],
                              [Text("$outdir/$rerundir/pfsGACatalog/"), Var(CatId), Text("/"), Var(NVisit), Text("-0x"), Var(PfsVisitHash)],
                              CatalogName)
    ])

  // ---------------------------------------------------------------------
  // PfsFileSystemConfig (repo/pfsfilesystemconfig.py) and constants.py

  /** `{**base.products, GA1DPipelineConfig: ...}` over the three work variables. */
  function PfsFileSystemConfig(base: map<ProductType, Product>): (t: Table)
    ensures t.root == "$datadir" && t.variables == WorkVariables
    ensures t.products.Keys == base.Keys + {GA1DPipelineConfig}
    ensures t.products[GA1DPipelineConfig] == GA1DConfigEntry
    ensures forall p :: p in base && p != GA1DPipelineConfig ==> t.products[p] == base[p]
  {
    Table("$datadir", WorkVariables, base[GA1DPipelineConfig := GA1DConfigEntry])
  }

  /** Exactly three path variables: workdir, datadir and rerundir. */
  lemma WorkVariablesNamed()
    ensures WorkVariables.Keys == {"workdir", "datadir", "rerundir"}
  {
  }

  const PfsGAConfigDirFormat := [Text("pfsGAObject/")] + ObjectDirTail
  const PfsGAConfigFilenameFormat := ObjectName("pfsGAConfig-", ".yaml")
  const PfsSingleDirGlob := [Text("pfsSingle/")] + ObjectDirTail
  const PfsSingleFilenameGlob := SingleName

  // ---------------------------------------------------------------------
  // Agreement of the shared pieces, for any parameter list that declares
  // their fields, and in-range values for those fields

  /** `p` is the first parameter of `P` with its name, at position `j`. */
  predicate Slot(P: seq<Param>, j: nat, p: Param) {
    IndexOfParam(P, p.name) == Some(j) && P[j] == p
  }

  predicate Below(v: Value, bound: nat) {
    v.Int? && 0 <= v.i < bound
  }

  const Max5 := 100000
  const Max6 := 1000000
  const Max16 := 0x1_0000_0000_0000_0000

  lemma WidthBounds()
    ensures Pow(10, 1) == 10 && Pow(10, 3) == 1000 && Pow(10, 5) == Max5 && Pow(10, 6) == Max6
    ensures Pow(16, 16) == Max16
  {
    assert Pow(16, 4) == 65536;
    assert Pow(16, 8) == 65536 * 65536;
    assert Pow(16, 12) == 65536 * 65536 * 65536;
  }

  lemma CatFits(prefix: string, P: seq<Param>, vals: seq<Value>, a: nat)
    requires |vals| == |P| && Slot(P, a, IntParam(CatId, 5)) && Below(vals[a], Max5)
    ensures Agrees(CatPieces(prefix), CatElems(prefix), P) && ValuesFit(CatPieces(prefix), CatElems(prefix), P, vals)
  {
    WidthBounds();
    var ps, es := CatPieces(prefix), CatElems(prefix);
    assert Agrees(ps[1..], es[1..], P) && ValuesFit(ps[1..], es[1..], P, vals);
  }

  lemma TractFits(P: seq<Param>, vals: seq<Value>, a: nat)
    requires |vals| == |P| && Slot(P, a, IntParam(Tract, 5)) && Below(vals[a], Max5)
    ensures Agrees(TractPieces, TractElems, P) && ValuesFit(TractPieces, TractElems, P, vals)
  {
    WidthBounds();
    var ps, es := TractPieces, TractElems;
    assert Agrees(ps[2..], es[2..], P) && ValuesFit(ps[2..], es[2..], P, vals);
    assert Agrees(ps[1..], es[1..], P) && ValuesFit(ps[1..], es[1..], P, vals);
  }

  lemma ObjIdFits(P: seq<Param>, vals: seq<Value>, a: nat)
    requires |vals| == |P| && Slot(P, a, HexParam(ObjId)) && Below(vals[a], Max16)
    ensures Agrees(ObjIdPieces, ObjIdElems, P) && ValuesFit(ObjIdPieces, ObjIdElems, P, vals)
  {
    WidthBounds();
    var ps, es := ObjIdPieces, ObjIdElems;
    assert Agrees(ps[1..], es[1..], P) && ValuesFit(ps[1..], es[1..], P, vals);
  }

  lemma VisitFits(P: seq<Param>, vals: seq<Value>, a: nat)
    requires |vals| == |P| && Slot(P, a, IntParam(Visit, 6)) && Below(vals[a], Max6)
    ensures Agrees(VisitPieces, VisitElems, P) && ValuesFit(VisitPieces, VisitElems, P, vals)
  {
    WidthBounds();
    var ps, es := VisitPieces, VisitElems;
    assert Agrees(ps[1..], es[1..], P) && ValuesFit(ps[1..], es[1..], P, vals);
  }

  lemma HashFits(P: seq<Param>, vals: seq<Value>, a: nat, b: nat)
    requires |vals| == |P| && Slot(P, a, IntParam(NVisit, 3)) && Below(vals[a], 1000)
    requires Slot(P, b, HexParam(PfsVisitHash)) && Below(vals[b], Max16)
    ensures Agrees(HashPieces, HashElems, P) && ValuesFit(HashPieces, HashElems, P, vals)
  {
    NVisitFits(P, vals, a);
    VisitHashFits(P, vals, b);
    AgreesAppend(NVisitPieces, NVisitElems, VisitHashPieces, VisitHashElems, P);
    ValuesFitAppend(NVisitPieces, NVisitElems, VisitHashPieces, VisitHashElems, P, vals);
  }

  lemma NVisitFits(P: seq<Param>, vals: seq<Value>, a: nat)
    requires |vals| == |P| && Slot(P, a, IntParam(NVisit, 3)) && Below(vals[a], 1000)
    ensures Agrees(NVisitPieces, NVisitElems, P) && ValuesFit(NVisitPieces, NVisitElems, P, vals)
  {
    WidthBounds();
    var ps, es := NVisitPieces, NVisitElems;
    assert Agrees(ps[1..], es[1..], P) && ValuesFit(ps[1..], es[1..], P, vals);
  }

  lemma VisitHashFits(P: seq<Param>, vals: seq<Value>, b: nat)
    requires |vals| == |P| && Slot(P, b, HexParam(PfsVisitHash)) && Below(vals[b], Max16)
    ensures Agrees(VisitHashPieces, VisitHashElems, P) && ValuesFit(VisitHashPieces, VisitHashElems, P, vals)
  {
    WidthBounds();
    var ps, es := VisitHashPieces, VisitHashElems;
    assert Agrees(ps[1..], es[1..], P) && ValuesFit(ps[1..], es[1..], P, vals);
  }

  lemma DesignFits(prefix: string, P: seq<Param>, vals: seq<Value>, a: nat)
    requires |vals| == |P| && Slot(P, a, HexParam(PfsDesignId)) && Below(vals[a], Max16)
    ensures Agrees(DesignPieces(prefix), DesignElems(prefix), P) && ValuesFit(DesignPieces(prefix), DesignElems(prefix), P, vals)
  {
    WidthBounds();
    var ps, es := DesignPieces(prefix), DesignElems(prefix);
    assert Agrees(ps[1..], es[1..], P) && ValuesFit(ps[1..], es[1..], P, vals);
  }

  lemma DateFits(P: seq<Param>, vals: seq<Value>, a: nat)
    requires |vals| == |P| && Slot(P, a, DateParam(Date)) && vals[a].Day? && Dates.ValidDate(vals[a].d)
    ensures Agrees([Var(Date)], [Group(Date, DateShape)], P) && ValuesFit([Var(Date)], [Group(Date, DateShape)], P, vals)
  {
    var ps, es := [Var(Date)], [Group(Date, DateShape)];
    assert Agrees(ps[1..], es[1..], P) && ValuesFit(ps[1..], es[1..], P, vals);
  }

  lemma FitsExtsExclusive()
    ensures ExtsExclusive(FitsExts) && ExtsExclusive([".yaml"]) && ExtsExclusive([".fits"])
  {
    assert !IsSuffix(".fits.gz", ".fits");
    assert !IsSuffix(".fits", ".fits.gz") by {
      assert ".fits.gz"[3..] == "ts.gz";
    }
  }
}
