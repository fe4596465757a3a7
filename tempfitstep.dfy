/**
 * The template-fit step (gapipe/steps/tempfitstep.py): the same arm
 * selection, spectra collection and grid sharing as the RV-fit step, with
 * product types that may be tuples, and the log-likelihood map around the
 * best fit.
 *
 * The fit itself, the PSFs and the log-likelihood values are not modelled;
 * a call of `map_log_L` is recorded as the pair of parameters it scans.
 */
module TempFitStep {
  import opened Wrappers
  import opened Identity
  import opened GaPipeline
  import opened RvFitStep
  import Runner

  // ---------------------------------------------------------------------
  // Available and fitted arms (init)

  /** An entry of `required_product_types`: a product type, or a tuple of them. */
  datatype Required = Single(t: Product) | Tuple(ts: seq<Product>)

  /** The product type an entry stands for: a tuple's last element; an empty tuple raises IndexError. */
  function Resolve(e: Required): Result<Product> {
    match e
    case Single(t) => Ok(t)
    case Tuple(ts) => if ts == [] then Fail(IndexError) else Ok(ts[|ts| - 1])
  }

  /** Single-object spectra, spectrum sets and target spectra contribute arms. */
  predicate Counted(p: Product) {
    p.kind == FiberArray || p.kind == FiberArraySet || p.kind == OtherKind(true)
  }

  function TempFitSurvey(c: Option<Cache>, items: seq<VisitItem>): Survey<Required> {
    Survey(c, items, Resolve, Counted)
  }

  /** A tuple contributes the arms of its last element, whatever comes before it. */
  lemma TupleLastOnly(c: Option<Cache>, items: seq<VisitItem>, front: seq<Product>, t: Product)
    ensures ArmsOf(TempFitSurvey(c, items), Tuple(front + [t])) == ArmsOf(TempFitSurvey(c, items), Single(t))
  {
    assert (front + [t])[|front + [t]| - 1] == t;
  }

  /** An empty tuple among the required types makes `init` raise, unless an earlier entry already failed. */
  lemma EmptyTupleRaises(c: Option<Cache>, items: seq<VisitItem>, ts: seq<Required>, k: nat)
    requires k < |ts| && ts[k] == Tuple([])
    requires forall j :: 0 <= j < k ==> ArmsOf(TempFitSurvey(c, items), ts[j]).Ok?
    ensures ObservedArms(TempFitSurvey(c, items), ts) == Fail(IndexError)
  {
    var rs := Contributions(TempFitSurvey(c, items), ts);
    UnionSucceeds(rs);
    UnionFailure(rs);
  }

  // ---------------------------------------------------------------------
  // The log-likelihood map (map_log_L)

  /** The parameters the map may scan, in scanning order. */
  const Scanned: seq<string> := ["M_H", "T_eff", "log_g"]

  /** The position of a parameter in `Scanned`, 3 for any other. */
  function Rank(p: string): (k: nat)
    ensures k <= 3 && (k < 3 <==> p in Scanned)
    ensures k < 3 ==> Scanned[k] == p
  {
    if p == "M_H" then 0 else if p == "T_eff" then 1 else if p == "log_g" then 2 else 3
  }

  /** The parameters of `ps` that are free, in the order of `ps`. */
  function FreeOf(ps: seq<string>, free: set<string>): seq<string> {
    if ps == [] then []
    else FreeOf(ps[..|ps| - 1], free) + (if ps[|ps| - 1] in free then [ps[|ps| - 1]] else [])
  }

  /** Keeping the free parameters keeps exactly the ones of `ps` in `free`, and no more than `ps` has. */
  lemma {:induction false} FreeOfMembers(ps: seq<string>, free: set<string>)
    ensures |FreeOf(ps, free)| <= |ps|
    ensures forall p :: p in FreeOf(ps, free) <==> p in ps && p in free
  {
    if ps != [] {
      var n := |ps| - 1;
      FreeOfMembers(ps[..n], free);
      assert ps == ps[..n] + [ps[n]];
    }
  }

  /** Keeping the free parameters of a list ordered by `rank` keeps them in `rank` order. */
  lemma {:induction false} FreeOfOrdered(ps: seq<string>, free: set<string>, rank: string -> nat)
    requires forall i, j :: 0 <= i < j < |ps| ==> rank(ps[i]) < rank(ps[j])
    ensures var pm := FreeOf(ps, free);
      forall i, j :: 0 <= i < j < |pm| ==> rank(pm[i]) < rank(pm[j])
  {
    if ps != [] {
      var n := |ps| - 1;
      var front := ps[..n];
      FreeOfOrdered(front, free, rank);
      FreeOfMembers(front, free);
      var pm := FreeOf(front, free);
      forall i | 0 <= i < |pm|
        ensures rank(pm[i]) < rank(ps[n])
      {
        assert pm[i] in front;
        var k :| 0 <= k < n && front[k] == pm[i];
      }
    }
  }

  /** `params_map`: the free parameters among M_H, T_eff and log_g, in that order and each once. */
  lemma MappedParams(free: set<string>)
    ensures var pm := FreeOf(Scanned, free);
      |pm| <= 3 &&
      (forall p :: p in pm <==> p in Scanned && p in free) &&
      (forall i, j :: 0 <= i < j < |pm| ==> Rank(pm[i]) < Rank(pm[j]))
  {
    FreeOfMembers(Scanned, free);
    FreeOfOrdered(Scanned, free, Rank);
  }

  /** A call of the map: the two parameters whose bounds it scans. */
  type Scan = (string, string)

  /** The calls: one for each consecutive pair of mapped parameters. */
  predicate ScansPairs(scans: seq<Scan>, pm: seq<string>) {
    |scans| == (if |pm| >= 2 then |pm| - 1 else 0) &&
    forall i :: 0 <= i < |scans| ==> scans[i] == (pm[i], pm[i + 1])
  }

  /**
   * The bounds loop: the free parameters among M_H, T_eff and log_g in
   * that order; a mapped parameter without a fitted value raises KeyError.
   */
  method MapBounds(free: set<string>, fitted: set<string>) returns (pm: seq<string>, failure: Option<Error>)
    ensures failure.None? ==> pm == FreeOf(Scanned, free)
    ensures failure.Some? <==> exists p :: p in Scanned && p in free && p !in fitted
    ensures failure.Some? ==> failure == Some(KeyError)
  {
    pm := [];
    var i := 0;
    while i < |Scanned|
      invariant 0 <= i <= |Scanned|
      invariant pm == FreeOf(Scanned[..i], free)
      invariant forall j :: 0 <= j < i && Scanned[j] in free ==> Scanned[j] in fitted
    {
      var p := Scanned[i];
      assert Scanned[..i + 1][..i] == Scanned[..i];
      if p in free {
        if p !in fitted {
          return pm, Some(KeyError);
        }
        pm := pm + [p];
      }
      i := i + 1;
    }
    assert Scanned[..i] == Scanned;
    failure := None;
  }

  /** The scanning loop: one map per consecutive pair when at least two parameters are mapped. */
  method ScanPairs(pm: seq<string>) returns (scans: seq<Scan>)
    ensures ScansPairs(scans, pm)
  {
    scans := [];
    if |pm| >= 2 {
      var i := 0;
      while i < |pm| - 1
        invariant 0 <= i <= |pm| - 1
        invariant |scans| == i && forall j :: 0 <= j < i ==> scans[j] == (pm[j], pm[j + 1])
      {
        scans := scans + [(pm[i], pm[i + 1])];
        i := i + 1;
      }
    }
  }

  /**
   * The screening of `load` is `Screen` with mostly masked spectra kept: a
   * spectrum without any masked pixel stays in its cell, where the test as
   * written (`ScreenAsWritten`, the same `masked_count == 0` test as the
   * RV-fit step) drops it.
   */
  lemma CleanSpectrumKept(input: Spectra, use: set<char>, visits: seq<int>, count: Spectrum -> PixelCount,
                          minUnmasked: int, a: char, v: int)
    requires Present(input, use, visits) && a in use && v in visits && input[a][v].Some?
    requires count(input[a][v].value).masked == 0 < count(input[a][v].value).size
    ensures Screened(input, use, visits, Screening(count, false, minUnmasked))[a][v] == input[a][v]
    ensures ScreenAsWritten(input[a][v], Screening(count, false, minUnmasked)) == None
  {
    CleanSpectrumDropped(input[a][v].value, Screening(count, false, minUnmasked));
  }

  // ---------------------------------------------------------------------
  // The step's state

  /** The attributes the template-fit step sets on the pipeline. */
  class TempFitState {
    /** `tempfit_arms`. */
    var arms: set<char>
    /** `tempfit_grids`: for each arm, the position in `gridFiles` of its grid. */
    var grids: map<char, nat>
    /** The grid files loaded, in load order. */
    var gridFiles: seq<string>
    /** `tempfit_spectra`. */
    var spectra: Lists

    /** Nothing fitted yet. */
    constructor ()
      ensures arms == {} && grids == map[] && gridFiles == [] && spectra == map[]
    {
      arms, grids, gridFiles, spectra := {}, map[], [], map[];
    }

    /**
     * `init`: skips the substeps when template fitting is off; else the
     * fitted arms are the configured arms the required products offer,
     * PipelineError when all are required and one is missing.
     */
    method Init(runTempfit: bool, required: Option<seq<Required>>, c: Option<Cache>, items: seq<VisitItem>,
                fitArms: seq<char>, requireAll: bool) returns (r: Runner.Call)
      modifies this
      ensures grids == old(grids) && gridFiles == old(gridFiles) && spectra == old(spectra)
      ensures !runTempfit ==> r == Runner.SkipSubsteps && arms == old(arms)
      ensures runTempfit && required.None? ==> r == Runner.Raised(TypeError) && arms == old(arms)
      ensures runTempfit && required.Some? ==>
        Validated(ObservedArms(TempFitSurvey(c, items), required.value), fitArms, requireAll, r, arms, old(arms))
    {
      if !runTempfit {
        return Runner.SkipSubsteps;
      }
      if required.None? {
        return Runner.Raised(TypeError);
      }
      var avail := SurveyArms(TempFitSurvey(c, items), required.value);
      if avail.Fail? {
        return Runner.Raised(avail.error);
      }
      var chosen, failure := SelectArms(fitArms, avail.value, requireAll);
      arms := chosen;
      if failure.Some? {
        return Runner.Raised(failure.value);
      }
      return Runner.Done;
    }

    /**
     * `load`: the grids of the fitted arms, then the collection of the
     * spectra read for them, screened without skipping mostly masked
     * spectra.
     */
    method Load(gp: GridPath, fmt: Format, input: Spectra, visits: seq<int>, count: Spectrum -> PixelCount, minUnmasked: int)
      returns (r: Runner.Call)
      modifies this
      ensures arms == old(arms)
      ensures GridMissing(arms, gp, fmt) ==>
        r == Runner.Raised(KeyError) && grids == old(grids) && gridFiles == old(gridFiles) && spectra == old(spectra)
      ensures !GridMissing(arms, gp, fmt) ==>
        GridsShared(arms, gp, fmt, grids, gridFiles) &&
        Loaded(Collected(input, arms, visits, Screening(count, false, minUnmasked)), r, spectra, old(spectra))
    {
      var g, files, failure := LoadGrids(arms, gp, fmt);
      if failure.Some? {
        return Runner.Raised(failure.value);
      }
      grids, gridFiles := g, files;
      var l := Collect(input, arms, visits, Screening(count, false, minUnmasked));
      if l.Fail? {
        return Runner.Raised(l.error);
      }
      spectra := l.value;
      return Runner.Done;
    }

    /**
     * `map_log_L`: nothing when the map is off; else one scan for each
     * consecutive pair of the free parameters among M_H, T_eff and log_g.
     */
    method MapLogL(enabled: bool, free: set<string>, fitted: set<string>) returns (r: Runner.Call, scans: seq<Scan>)
      ensures !enabled ==> r == Runner.Done && scans == []
      ensures enabled && (exists p :: p in Scanned && p in free && p !in fitted) ==>
        r == Runner.Raised(KeyError) && scans == []
      ensures enabled && !(exists p :: p in Scanned && p in free && p !in fitted) ==>
        r == Runner.Done && ScansPairs(scans, FreeOf(Scanned, free))
    {
      if !enabled {
        return Runner.Done, [];
      }
      var pm, failure := MapBounds(free, fitted);
      if failure.Some? {
        return Runner.Raised(failure.value), [];
      }
      scans := ScanPairs(pm);
      r := Runner.Done;
    }
  }
}
