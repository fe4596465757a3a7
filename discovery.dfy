/**
 * `FileSystemDiscovery` (discovery/filesystemdiscovery.py), the older
 * locator built on the `IDFilter` family. Its finders return the paths
 * `glob` gives, and its getters apply the 0/1/many rule to them.
 *
 * As written, a discovery cannot be made: the fresh-construction branch
 * calls `HexIDFilter(name=..., format=...)`, and `HexIDFilter.__init__`
 * declares no `name` keyword, so it raises TypeError; the copy branch
 * needs a discovery to copy. `Discovery.Intended` is the construction the
 * rest of the class evidently expects.
 */
module Discoveries {
  import opened Wrappers
  import opened Values
  import opened IdFilters
  import opened Locator
  import opened Connectors

  /** The keyword arguments `HexIDFilter.__init__(self, format=None, orig=None)` declares. */
  const HexIdKeywords: set<string> := {"format", "orig"}

  /** Python's call rule: a keyword the callee does not declare raises TypeError before its body runs. */
  function CallWithKeywords(declared: set<string>, given: set<string>): (r: Option<Error>)
    ensures r.None? <==> given <= declared
    ensures r.Some? ==> r.value == TypeError
  {
    if given <= declared then None else Some(TypeError)
  }

  /** A getter: the finder's error, or the single path it found. */
  function ThenPickOne(found: Result<seq<string>>): Result<string> {
    match found
    case Fail(e) => Fail(e)
    case Ok(files) => PickOne(files)
  }

  class Discovery {
    var datadir: Option<string>
    var rerundir: Option<string>
    const pfsDesignId: IdFilter
    const catId: IdFilter
    const tract: IdFilter
    var patch: Option<IdFilter>
    const objId: IdFilter
    const visit: IdFilter

    /**
     * `FileSystemDiscovery(datadir, rerundir, orig)`: with no discovery to
     * copy, the first filter's construction raises TypeError; a copy shares
     * `orig`'s filters and falls back to its directories.
     */
    static method Create(datadir: Option<string>, rerundir: Option<string>, orig: Discovery?) returns (r: Result<Discovery>)
      ensures orig == null ==> r == Fail(TypeError)
      ensures orig != null ==> r.Ok? && fresh(r.value)
      ensures orig != null ==> r.value.datadir == (if datadir.Some? then datadir else orig.datadir)
      ensures orig != null ==> r.value.rerundir == (if rerundir.Some? then rerundir else orig.rerundir)
      ensures orig != null ==>
        r.value.pfsDesignId == orig.pfsDesignId && r.value.catId == orig.catId && r.value.tract == orig.tract &&
        r.value.patch == orig.patch && r.value.objId == orig.objId && r.value.visit == orig.visit
    {
      if orig == null {
        var failure := CallWithKeywords(HexIdKeywords, {"name", "format"});
        assert "name" !in HexIdKeywords;
        return Fail(failure.value);
      }
      var d := new Discovery.Copy(datadir, rerundir, orig);
      return Ok(d);
    }

    /** The copy branch of the constructor. */
    constructor Copy(datadir: Option<string>, rerundir: Option<string>, orig: Discovery)
      ensures this.datadir == (if datadir.Some? then datadir else orig.datadir)
      ensures this.rerundir == (if rerundir.Some? then rerundir else orig.rerundir)
      ensures pfsDesignId == orig.pfsDesignId && catId == orig.catId && tract == orig.tract
      ensures patch == orig.patch && objId == orig.objId && visit == orig.visit
    {
      this.datadir := if datadir.Some? then datadir else orig.datadir;
      this.rerundir := if rerundir.Some? then rerundir else orig.rerundir;
      pfsDesignId := orig.pfsDesignId;
      catId := orig.catId;
      tract := orig.tract;
      patch := orig.patch;
      objId := orig.objId;
      visit := orig.visit;
    }

    /**
     * The fresh construction the class evidently intends: every filter
     * named and formatted as the constructor's arguments say, no patch
     * filter.
     */
    constructor Intended(datadir: Option<string>, rerundir: Option<string>)
      ensures this.datadir == datadir && this.rerundir == rerundir && patch.None?
      ensures fresh(pfsDesignId) && fresh(catId) && fresh(tract) && fresh(objId) && fresh(visit)
      ensures pfsDesignId.kind == HexKind && pfsDesignId.name == Some("pfsDesignId") &&
        pfsDesignId.format == FormatText(Hex16) && pfsDesignId.values.None?
      ensures catId.kind == IntKind && catId.name == Some("catid") && catId.format == FormatText(Dec5) &&
        tract.kind == IntKind && tract.name == Some("tract") && tract.format == FormatText(Dec5)
      ensures objId.kind == HexKind && objId.name == Some("objid") && objId.format == FormatText(Hex16) &&
        visit.kind == IntKind && visit.name == Some("visit") && visit.format == FormatText(Dec6)
    {
      this.datadir := datadir;
      this.rerundir := rerundir;
      pfsDesignId := new IdFilter(HexKind, Some("pfsDesignId"), Some(Hex16), null);
      catId := new IdFilter(IntKind, Some("catid"), Some(Dec5), null);
      tract := new IdFilter(IntKind, Some("tract"), Some(Dec5), null);
      patch := None;
      objId := new IdFilter(HexKind, Some("objid"), Some(Hex16), null);
      visit := new IdFilter(IntKind, Some("visit"), Some(Dec6), null);
    }

    /** `find_datadir(reference_path)`, as in the connector. */
    function FindDatadir(cwd: string, reference: Option<string>): (r: Result<string>)
      reads this
      ensures reference.Some? ==> r == DatadirOf(cwd, reference, None)
      ensures reference.None? ==> (r.Ok? <==> datadir.Some?)
      ensures reference.None? && r.Ok? ==> r.value == AbsPath(cwd, datadir.value)
    {
      DatadirOf(cwd, reference, datadir)
    }

    /** `find_rerundir(reference_path)`, as in the connector. */
    function FindRerundir(cwd: string, reference: Option<string>): (r: Result<string>)
      reads this
      ensures reference.Some? ==> r == RerundirOf(cwd, reference, None, None)
      ensures reference.None? ==> (r.Ok? <==> datadir.Some? && rerundir.Some?)
      ensures reference.None? && r.Ok? ==> r.value == AbsPath(cwd, JoinPath(datadir.value, rerundir.value))
    {
      RerundirOf(cwd, reference, datadir, rerundir)
    }

    /** `find_pfsDesign(pfsDesignId, reference_path)`. */
    function FindPfsDesign(reference: Option<string>): (r: Result<seq<string>>)
      reads this
      ensures r.Fail?
      ensures r.error == (if DatadirPath(reference, datadir).Fail? then DatadirPath(reference, datadir).error else AttributeError)
    {
      FindProduct(reference, datadir)
    }

    /**
     * `get_pfsDesign(pfsDesignId, reference_path)`: without an id it reads
     * `self.__pfsDesignId.value`, an attribute `IDFilter` does not have.
     */
    function GetPfsDesign(pfsDesignId: Option<int>, reference: Option<string>): (r: Result<string>)
      reads this
      ensures r.Fail?
      ensures pfsDesignId.None? ==> r.error == AttributeError
      ensures pfsDesignId.Some? ==> r.error == FindPfsDesign(reference).error
    {
      if pfsDesignId.None? then Fail(AttributeError)
      else ThenPickOne(FindPfsDesign(reference))
    }

    /** `find_pfsConfig(pfsDesignId, visit, reference_path)`. */
    function FindPfsConfig(reference: Option<string>): (r: Result<seq<string>>)
      reads this
      ensures r.Fail?
      ensures r.error == (if DatadirPath(reference, datadir).Fail? then DatadirPath(reference, datadir).error else AttributeError)
    {
      FindProduct(reference, datadir)
    }

    /** `get_pfsConfig(pfsDesignId, visit, reference_path)`: a missing id or visit reads a missing `.value`. */
    function GetPfsConfig(pfsDesignId: Option<int>, visit: Option<int>, reference: Option<string>): (r: Result<string>)
      reads this
      ensures r.Fail?
      ensures pfsDesignId.None? || visit.None? ==> r.error == AttributeError
      ensures pfsDesignId.Some? && visit.Some? ==> r.error == FindPfsConfig(reference).error
    {
      if pfsDesignId.None? || visit.None? then Fail(AttributeError)
      else ThenPickOne(FindPfsConfig(reference))
    }
  }
}
