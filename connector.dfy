/**
 * `FileSystemConnector` (data/filesystemconnector.py): the data and rerun
 * directories it is configured with, the search filters it keeps for
 * every identity field, and its find, get and load operations. The
 * product-specific finders name `Constants.PFSDESIGN_*` and
 * `Constants.PFSCONFIG_*`, which the `Constants` class does not define:
 * once the data directory has been worked out, they raise AttributeError.
 */
module Connectors {
  import opened Wrappers
  import opened Values
  import opened SearchFilters
  import opened Locator

  /** `'{:016x}'`, `'{:05d}'` and `'{:06d}'`, the formats the filters are built with. */
  const Hex16 := Format("", Hexadecimal(16))
  const Dec5 := Format("", Decimal(5))
  const Dec6 := Format("", Decimal(6))

  /**
   * What `load_pfsDesign` and `load_pfsConfig` raise before any file is
   * read: giving both a path and an identity is a ValueError; otherwise
   * the directory or file-name format they look up on `Constants` is
   * missing.
   */
  function LoadFailure(path: Option<string>, identity: Option<seq<Value>>): (e: Error)
    ensures e == ValueError <==> path.Some? && identity.Some?
    ensures e != ValueError ==> e == AttributeError
  {
    if path.Some? && identity.Some? then ValueError else AttributeError
  }

  /**
   * A product finder: the data directory is worked out first (so its
   * errors come first), then the missing `Constants` attribute is read.
   */
  function FindProduct<T>(reference: Option<string>, datadir: Option<string>): (r: Result<T>)
    ensures r.Fail?
    ensures DatadirPath(reference, datadir).Fail? ==> r.error == DatadirPath(reference, datadir).error
    ensures DatadirPath(reference, datadir).Ok? ==> r.error == AttributeError
  {
    match DatadirPath(reference, datadir)
    case Fail(e) => Fail(e)
    case Ok(_) => Fail(AttributeError)
  }

  /** A getter: the finder's error, or single-file selection on what it found. */
  function ThenSingleFile(found: Result<Found>): Result<(string, seq<Value>)> {
    match found
    case Fail(e) => Fail(e)
    case Ok(f) => SingleFile(f)
  }

  class Connector {
    var datadir: Option<string>
    var rerundir: Option<string>
    const pfsDesignId: SearchFilter
    const catId: SearchFilter
    const tract: SearchFilter
    var patch: SearchFilter
    const objId: SearchFilter
    const visit: SearchFilter
    const date: SearchFilter

    /**
     * `FileSystemConnector(datadir, rerundir, orig)`. Without a connector
     * to copy, fresh unrestricted filters are made for every field; a copy
     * shares `orig`'s filter objects and falls back to its directories.
     */
    constructor (datadir: Option<string>, rerundir: Option<string>, orig: Connector?)
      ensures orig == null ==> this.datadir == datadir && this.rerundir == rerundir
      ensures orig != null ==> this.datadir == (if datadir.Some? then datadir else orig.datadir)
      ensures orig != null ==> this.rerundir == (if rerundir.Some? then rerundir else orig.rerundir)
      ensures orig != null ==>
        pfsDesignId == orig.pfsDesignId && catId == orig.catId && tract == orig.tract &&
        patch == orig.patch && objId == orig.objId && visit == orig.visit && date == orig.date
      ensures orig == null ==>
        fresh(pfsDesignId) && fresh(catId) && fresh(tract) && fresh(patch) && fresh(objId) && fresh(visit) && fresh(date)
      ensures orig == null ==>
        pfsDesignId.kind == HexKind && pfsDesignId.name == Some("pfsDesignId") && pfsDesignId.format == Hex16 &&
        pfsDesignId.values.None?
      ensures orig == null ==>
        catId.kind == IntKind && catId.name == Some("catid") && catId.format == Dec5 && catId.values.None? &&
        tract.kind == IntKind && tract.name == Some("tract") && tract.format == Dec5 && tract.values.None?
      ensures orig == null ==>
        patch.kind == StringKind && patch.name == Some("patch") && patch.format == PlainFormat && patch.values.None? &&
        objId.kind == HexKind && objId.name == Some("objid") && objId.format == Hex16 && objId.values.None?
      ensures orig == null ==>
        visit.kind == IntKind && visit.name == Some("visit") && visit.format == Dec6 && visit.values.None? &&
        date.kind == DateKind && date.name == Some("date") && date.format == DateFilterDefault && date.values.None?
    {
      if orig == null {
        this.datadir := datadir;
        this.rerundir := rerundir;
        pfsDesignId := new SearchFilter(HexKind, [], Some("pfsDesignId"), Some(Hex16), null);
        catId := new SearchFilter(IntKind, [], Some("catid"), Some(Dec5), null);
        tract := new SearchFilter(IntKind, [], Some("tract"), Some(Dec5), null);
        patch := new SearchFilter(StringKind, [], Some("patch"), None, null);
        objId := new SearchFilter(HexKind, [], Some("objid"), Some(Hex16), null);
        visit := new SearchFilter(IntKind, [], Some("visit"), Some(Dec6), null);
        date := new SearchFilter(DateKind, [], Some("date"), None, null);
      } else {
        this.datadir := if datadir.Some? then datadir else orig.datadir;
        this.rerundir := if rerundir.Some? then rerundir else orig.rerundir;
        pfsDesignId := orig.pfsDesignId;
        catId := orig.catId;
        tract := orig.tract;
        patch := orig.patch;
        objId := orig.objId;
        visit := orig.visit;
        date := orig.date;
      }
    }

    /** The `datadir` setter. */
    method SetDatadir(value: Option<string>)
      modifies this
      ensures datadir == value && rerundir == old(rerundir) && patch == old(patch)
    {
      datadir := value;
    }

    /** The `rerundir` setter. */
    method SetRerundir(value: Option<string>)
      modifies this
      ensures rerundir == value && datadir == old(datadir) && patch == old(patch)
    {
      rerundir := value;
    }

    /** The `patch` setter. */
    method SetPatch(value: SearchFilter)
      modifies this
      ensures patch == value && datadir == old(datadir) && rerundir == old(rerundir)
    {
      patch := value;
    }

    /**
     * `find_datadir(reference_path)`: a reference path decides alone, and
     * without one the configured directory is the answer, made absolute
     * in the working directory `cwd`.
     */
    function FindDatadir(cwd: string, reference: Option<string>): (r: Result<string>)
      reads this
      ensures reference.Some? ==> r == DatadirOf(cwd, reference, None)
      ensures reference.None? ==> (r.Ok? <==> datadir.Some?)
      ensures reference.None? && r.Ok? ==> r.value == AbsPath(cwd, datadir.value)
    {
      DatadirOf(cwd, reference, datadir)
    }

    /**
     * `find_rerundir(reference_path)`: a reference path decides alone, and
     * without one the rerun directory is joined onto the data directory
     * and made absolute in the working directory `cwd`.
     */
    function FindRerundir(cwd: string, reference: Option<string>): (r: Result<string>)
      reads this
      ensures reference.Some? ==> r == RerundirOf(cwd, reference, None, None)
      ensures reference.None? ==> (r.Ok? <==> datadir.Some? && rerundir.Some?)
      ensures reference.None? && r.Ok? ==> r.value == AbsPath(cwd, JoinPath(datadir.value, rerundir.value))
    {
      RerundirOf(cwd, reference, datadir, rerundir)
    }

    /** `find_pfsDesign(pfsDesignId, reference_path)`. */
    function FindPfsDesign(reference: Option<string>): (r: Result<Found>)
      reads this
      ensures r.Fail?
      ensures r.error == (if DatadirPath(reference, datadir).Fail? then DatadirPath(reference, datadir).error else AttributeError)
    {
      FindProduct(reference, datadir)
    }

    /** `get_pfsDesign(pfsDesignId, reference_path)`: the find, then single-file selection. */
    function GetPfsDesign(reference: Option<string>): (r: Result<(string, seq<Value>)>)
      reads this
      ensures r.Fail? && r.error == FindPfsDesign(reference).error
    {
      ThenSingleFile(FindPfsDesign(reference))
    }

    /** `find_pfsConfig(pfsDesignId, visit, date, reference_path)`. */
    function FindPfsConfig(reference: Option<string>): (r: Result<Found>)
      reads this
      ensures r.Fail?
      ensures r.error == (if DatadirPath(reference, datadir).Fail? then DatadirPath(reference, datadir).error else AttributeError)
    {
      FindProduct(reference, datadir)
    }

    /** `get_pfsConfig(visit, pfsDesignId, reference_path)`. */
    function GetPfsConfig(reference: Option<string>): (r: Result<(string, seq<Value>)>)
      reads this
      ensures r.Fail? && r.error == FindPfsConfig(reference).error
    {
      ThenSingleFile(FindPfsConfig(reference))
    }
  }
}
