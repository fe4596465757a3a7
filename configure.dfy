/**
 * The configure script (scripts/configure/configurescript.py): for every
 * object the input repository finds, it keeps the visits whose required
 * products exist, builds the target section over those visits, copies the
 * pipeline configuration template, sets the input directories, the
 * photometry and the priors in the copy, and saves it, stopping after
 * `top` objects.
 *
 * The repositories, the file system, `wraparoundNVisit`,
 * `calculatePfsVisitHash` and the config path the work repository formats
 * are parameters (`Services`).
 */
module Configure {
  import opened Wrappers
  import Identity
  import Priors
  import Photometry

  // ---------------------------------------------------------------------
  // Data

  /** The observation columns of one visit. */
  datatype Observation = Observation(
    visit: int, arms: string, spectrograph: int, pfsDesignId: int, fiberId: int,
    fiberStatus: int, obsTime: string, expTime: Photometry.Reading, seeing: Photometry.Reading)

  /** Entry `i` of every column of the identity `find_objects` returns. */
  datatype VisitRow = VisitRow(
    proposalId: string, targetType: int, catId: int, tract: int, patch: string, obs: Observation)

  /** One object found by the input repository. */
  datatype Candidate = Candidate(objId: int, rows: seq<VisitRow>)

  /**
   * A data repository as product lookup sees it: whether
   * `parse_product_type` knows a product name, and the path
   * `locate_product` gives for one visit (None when it finds none).
   */
  datatype Repo = Repo(knows: string -> bool, locate: (string, VisitRow) -> Option<string>)

  /** One fiber of a pfsConfig file: its objId and the fluxes of its filters. */
  datatype ConfigFiber = ConfigFiber(objId: int, filters: seq<Photometry.FilterFluxes>)

  datatype Services = Services(
    repos: seq<Repo>,                                   // the input repository, then the work repository
    files: set<string>,                                 // the paths that are existing files
    requiredProducts: seq<string>,
    wrapNVisit: nat -> int,
    visitHash: seq<int> -> int,
    configPath: Identity.ObjectIdentity -> string,      // work-repo directory joined with the file name
    inputVariables: map<string, string>,                // resolved variables of the input repository
    pfsConfigs: map<int, seq<ConfigFiber>>,             // the pfsConfig fibers by visit
    stellarParams: Option<map<int, Priors.Row>>)        // the stellar parameter table by objId

  /** `GATargetConfig` over the surviving visits. */
  datatype Target = Target(
    proposalId: string, targetType: int, identity: Identity.ObjectIdentity, observations: seq<Observation>)

  /** The parts of `GAPipelineConfig` the script sets. */
  datatype Settings = Settings(
    datadir: Option<string>, rerundir: Option<string>, target: Option<Target>,
    tempfitArgs: Priors.Args, photometry: Option<Photometry.Entries>)

  // ---------------------------------------------------------------------
  // Required products

  /** The first repository, in order, that knows the product type. */
  function FirstKnowing(repos: seq<Repo>, product: string): (r: Option<nat>)
    ensures r.Some? ==> r.value < |repos| && repos[r.value].knows(product)
    ensures r.Some? ==> forall j :: 0 <= j < r.value ==> !repos[j].knows(product)
    ensures r.None? ==> forall j :: 0 <= j < |repos| ==> !repos[j].knows(product)
  {
    if repos == [] then None
    else if repos[0].knows(product) then Some(0)
    else
      var t := FirstKnowing(repos[1..], product);
      if t.None? then None else Some(t.value + 1)
  }

  /** `locate_product` gives a path and that path is an existing file. */
  predicate Located(repo: Repo, files: set<string>, product: string, row: VisitRow) {
    repo.locate(product, row).Some? && repo.locate(product, row).value in files
  }

  /** The product does not exclude the visit: no repository knows it, or the first that does locates the file. */
  predicate Available(repos: seq<Repo>, files: set<string>, product: string, row: VisitRow) {
    var r := FirstKnowing(repos, product);
    r.None? || Located(repos[r.value], files, product, row)
  }

  /** The visit mask: visit `i` survives when every required product is available for it. */
  function VisitMask(repos: seq<Repo>, files: set<string>, products: seq<string>, rows: seq<VisitRow>): (m: seq<bool>)
    ensures |m| == |rows|
  {
    seq(|rows|, i requires 0 <= i < |rows| =>
      forall j :: 0 <= j < |products| ==> Available(repos, files, products[j], rows[i]))
  }

  /**
   * `__locate_required_products`: the mask starts all True and is ANDed,
   * product by product, with the visits the first repository knowing the
   * product locates; a product no repository knows is passed over.
   */
  method LocateRequiredProducts(repos: seq<Repo>, files: set<string>, products: seq<string>, rows: seq<VisitRow>)
    returns (mask: array<bool>)
    ensures fresh(mask) && mask[..] == VisitMask(repos, files, products, rows)
  {
    mask := new bool[|rows|](_ => true);
    for p := 0 to |products|
      invariant mask.Length == |rows|
      invariant forall i :: 0 <= i < |rows| ==>
        (mask[i] <==> forall j :: 0 <= j < p ==> Available(repos, files, products[j], rows[i]))
    {
      var m, found := ProductMask(repos, files, products[p], rows);
      if !found {
        continue;
      }
      ghost var before := mask[..];
      for i := 0 to |rows|
        modifies mask
        invariant forall k :: 0 <= k < i ==> mask[k] == (before[k] && m[k])
        invariant forall k :: i <= k < |rows| ==> mask[k] == before[k]
      {
        mask[i] := mask[i] && m[i];
      }
    }
  }

  /**
   * The per-product part of `__locate_required_products`: the repositories
   * are tried in order, the first that knows the product decides, and
   * visit `i` is marked when that repository locates an existing file.
   */
  method ProductMask(repos: seq<Repo>, files: set<string>, product: string, rows: seq<VisitRow>)
    returns (m: array<bool>, found: bool)
    ensures fresh(m) && m.Length == |rows|
    ensures found <==> FirstKnowing(repos, product).Some?
    ensures found ==> forall i :: 0 <= i < |rows| ==> (m[i] <==> Located(repos[FirstKnowing(repos, product).value], files, product, rows[i]))
    ensures !found ==> forall i :: 0 <= i < |rows| ==> Available(repos, files, product, rows[i])
  {
    m := new bool[|rows|](_ => false);
    found := false;
    var r := 0;
    while r < |repos| && !found
      modifies m
      invariant 0 <= r <= |repos|
      invariant !found ==> forall q :: 0 <= q < r ==> !repos[q].knows(product)
      invariant !found ==> forall k :: 0 <= k < |rows| ==> !m[k]
      invariant found ==>
        r > 0 && FirstKnowing(repos, product) == Some(r - 1) &&
        forall i :: 0 <= i < |rows| ==> (m[i] <==> Located(repos[r - 1], files, product, rows[i]))
    {
      if repos[r].knows(product) {
        found := true;
        assert FirstKnowing(repos, product) == Some(r);
        for i := 0 to |rows|
          modifies m
          invariant forall k :: 0 <= k < i ==> (m[k] <==> Located(repos[r], files, product, rows[k]))
          invariant forall k :: i <= k < |rows| ==> !m[k]
        {
          var fn := repos[r].locate(product, rows[i]);
          if fn.None? {
          } else if fn.value !in files {
          } else {
            m[i] := true;
          }
        }
      }
      r := r + 1;
    }
  }

  /** A surviving visit has, for every required product some repository knows, an existing file in the first such repository. */
  lemma SurvivorHasFiles(repos: seq<Repo>, files: set<string>, products: seq<string>, rows: seq<VisitRow>, i: nat, j: nat)
    requires i < |rows| && j < |products| && VisitMask(repos, files, products, rows)[i]
    requires FirstKnowing(repos, products[j]).Some?
    ensures var r := repos[FirstKnowing(repos, products[j]).value];
      r.locate(products[j], rows[i]).Some? && r.locate(products[j], rows[i]).value in files
  {
  }

  /** A product no repository knows leaves the mask as it was. */
  lemma UnknownProductIgnored(repos: seq<Repo>, files: set<string>, products: seq<string>, p: string, rows: seq<VisitRow>)
    requires forall q :: 0 <= q < |repos| ==> !repos[q].knows(p)
    ensures VisitMask(repos, files, products + [p], rows) == VisitMask(repos, files, products, rows)
  {
    var a := VisitMask(repos, files, products + [p], rows);
    var b := VisitMask(repos, files, products, rows);
    forall i | 0 <= i < |rows|
      ensures a[i] == b[i]
    {
      assert forall j :: 0 <= j < |products| ==> (products + [p])[j] == products[j];
      assert Available(repos, files, p, rows[i]);
    }
  }

  /** Each further product can only remove visits, and removes exactly those it does not find. */
  lemma ProductNarrowsMask(repos: seq<Repo>, files: set<string>, products: seq<string>, p: string, rows: seq<VisitRow>, i: nat)
    requires i < |rows|
    ensures VisitMask(repos, files, products + [p], rows)[i] <==>
      VisitMask(repos, files, products, rows)[i] && Available(repos, files, p, rows[i])
  {
    var ps := products + [p];
    assert forall j :: 0 <= j < |products| ==> ps[j] == products[j];
    assert ps[|products|] == p;
  }

  // ---------------------------------------------------------------------
  // The target section

  /** `a[mask]` for a boolean mask: the masked-in elements, in order. */
  function Select<T>(xs: seq<T>, mask: seq<bool>): (r: seq<T>)
    requires |mask| == |xs|
    ensures |r| <= |xs|
    decreases |xs|
  {
    if xs == [] then []
    else Select(xs[..|xs| - 1], mask[..|mask| - 1]) + (if mask[|mask| - 1] then [xs[|xs| - 1]] else [])
  }

  /** The number of True entries, `mask.sum()`. */
  function Count(mask: seq<bool>): nat
    decreases |mask|
  {
    if mask == [] then 0 else Count(mask[..|mask| - 1]) + (if mask[|mask| - 1] then 1 else 0)
  }

  /** The selection holds exactly the masked-in elements, as many as the mask has True entries. */
  lemma SelectContents<T>(xs: seq<T>, mask: seq<bool>)
    requires |mask| == |xs|
    ensures |Select(xs, mask)| == Count(mask)
    ensures forall x :: x in Select(xs, mask) <==> exists i :: 0 <= i < |xs| && mask[i] && xs[i] == x
  {
    SelectLength(xs, mask);
    SelectMembers(xs, mask);
  }

  lemma {:induction false} SelectLength<T>(xs: seq<T>, mask: seq<bool>)
    requires |mask| == |xs|
    ensures |Select(xs, mask)| == Count(mask)
    decreases |xs|
  {
    if xs != [] {
      SelectLength(xs[..|xs| - 1], mask[..|mask| - 1]);
    }
  }

  lemma SelectMembers<T>(xs: seq<T>, mask: seq<bool>)
    requires |mask| == |xs|
    ensures forall x :: x in Select(xs, mask) <==> exists i :: 0 <= i < |xs| && mask[i] && xs[i] == x
  {
    SelectSound(xs, mask);
    SelectComplete(xs, mask);
  }

  /** Every selected element is a masked-in one. */
  lemma {:induction false} SelectSound<T>(xs: seq<T>, mask: seq<bool>)
    requires |mask| == |xs|
    ensures forall x :: x in Select(xs, mask) ==> exists i :: 0 <= i < |xs| && mask[i] && xs[i] == x
    decreases |xs|
  {
    if xs != [] {
      var n := |xs| - 1;
      SelectSound(xs[..n], mask[..n]);
      forall x | x in Select(xs, mask)
        ensures exists i :: 0 <= i < |xs| && mask[i] && xs[i] == x
      {
        if x in Select(xs[..n], mask[..n]) {
          var i :| 0 <= i < n && mask[..n][i] && xs[..n][i] == x;
          assert mask[i] && xs[i] == x;
        } else {
          assert mask[n] && xs[n] == x;
        }
      }
    }
  }

  /** Every masked-in element is selected. */
  lemma {:induction false} SelectComplete<T>(xs: seq<T>, mask: seq<bool>)
    requires |mask| == |xs|
    ensures forall i :: 0 <= i < |xs| && mask[i] ==> xs[i] in Select(xs, mask)
    decreases |xs|
  {
    if xs != [] {
      var n := |xs| - 1;
      SelectComplete(xs[..n], mask[..n]);
      forall i | 0 <= i < |xs| && mask[i]
        ensures xs[i] in Select(xs, mask)
      {
        if i < n {
          assert mask[..n][i] && xs[..n][i] == xs[i];
        }
      }
    }
  }

  /** An all-True mask selects everything. */
  lemma {:induction false} SelectAll<T>(xs: seq<T>, mask: seq<bool>)
    requires |mask| == |xs| && forall i :: 0 <= i < |mask| ==> mask[i]
    ensures Select(xs, mask) == xs
    decreases |xs|
  {
    if xs != [] {
      var n := |xs| - 1;
      SelectAll(xs[..n], mask[..n]);
      assert xs[..n] + [xs[n]] == xs;
    }
  }

  /** Masking commutes with taking a column. */
  lemma {:induction false} SelectMap(rows: seq<VisitRow>, mask: seq<bool>)
    requires |mask| == |rows|
    ensures Select(Observations(rows), mask) == Observations(Select(rows, mask))
    ensures Visits(Select(Observations(rows), mask)) == Visits(Observations(Select(rows, mask)))
    decreases |rows|
  {
    if rows != [] {
      var n := |rows| - 1;
      SelectMap(rows[..n], mask[..n]);
      assert Observations(rows)[..n] == Observations(rows[..n]);
      ObservationsAppend(Select(rows[..n], mask[..n]), if mask[n] then [rows[n]] else []);
    }
  }

  function Observations(rows: seq<VisitRow>): (r: seq<Observation>)
    ensures |r| == |rows| && forall i :: 0 <= i < |rows| ==> r[i] == rows[i].obs
  {
    seq(|rows|, i requires 0 <= i < |rows| => rows[i].obs)
  }

  lemma ObservationsAppend(a: seq<VisitRow>, b: seq<VisitRow>)
    ensures Observations(a + b) == Observations(a) + Observations(b)
  {
  }

  function Visits(obs: seq<Observation>): (r: seq<int>)
    ensures |r| == |obs| && forall i :: 0 <= i < |obs| ==> r[i] == obs[i].visit
  {
    seq(|obs|, i requires 0 <= i < |obs| => obs[i].visit)
  }

  /**
   * `__create_target_config`: None when no visit survives; otherwise the
   * identity fields of the first row, the object id, and nVisit and the
   * visit hash of the surviving visits, with every observation column
   * masked the same way.
   */
  function TargetFor(svc: Services, objId: int, rows: seq<VisitRow>, mask: seq<bool>): (t: Option<Target>)
    requires |mask| == |rows|
    ensures t.None? <==> Count(mask) == 0
    ensures t.Some? ==> t.value.observations == Select(Observations(rows), mask)
    ensures t.Some? ==> |t.value.observations| == Count(mask) > 0
    ensures t.Some? ==> t.value.identity == Identity.ObjectIdentity(
      Some(rows[0].catId), Some(rows[0].tract), Some(rows[0].patch), Some(objId),
      Some(svc.wrapNVisit(Count(mask))), Some(svc.visitHash(Visits(t.value.observations))))
  {
    SelectContents(Observations(rows), mask);
    if Count(mask) == 0 then None
    else
      var obs := Select(Observations(rows), mask);
      Some(Target(rows[0].proposalId, rows[0].targetType,
        Identity.ObjectIdentity(Some(rows[0].catId), Some(rows[0].tract), Some(rows[0].patch), Some(objId),
          Some(svc.wrapNVisit(|obs|)), Some(svc.visitHash(Visits(obs)))),
        obs))
  }

  /** Every observation of a target comes from a visit whose required products were all found. */
  lemma TargetObservationsAvailable(svc: Services, c: Candidate, o: Observation, j: nat)
    requires TargetFor(svc, c.objId, c.rows, VisitMask(svc.repos, svc.files, svc.requiredProducts, c.rows)).Some?
    requires o in TargetFor(svc, c.objId, c.rows, VisitMask(svc.repos, svc.files, svc.requiredProducts, c.rows)).value.observations
    requires j < |svc.requiredProducts|
    ensures exists i :: 0 <= i < |c.rows| && c.rows[i].obs == o && Available(svc.repos, svc.files, svc.requiredProducts[j], c.rows[i])
  {
    var mask := VisitMask(svc.repos, svc.files, svc.requiredProducts, c.rows);
    SelectContents(Observations(c.rows), mask);
    var i :| 0 <= i < |c.rows| && mask[i] && Observations(c.rows)[i] == o;
    assert Available(svc.repos, svc.files, svc.requiredProducts[j], c.rows[i]);
  }

  // ---------------------------------------------------------------------
  // The per-object configuration

  /** `GAPipelineConfig`, as far as the script sets it. */
  class PipelineConfig {
    var datadir: Option<string>
    var rerundir: Option<string>
    var target: Option<Target>
    var tempfitArgs: Priors.Args
    var photometry: Option<Photometry.Entries>

    function Value(): Settings
      reads this
    {
      Settings(datadir, rerundir, target, tempfitArgs, photometry)
    }

    constructor (s: Settings)
      ensures Value() == s
    {
      datadir := s.datadir;
      rerundir := s.rerundir;
      target := s.target;
      tempfitArgs := s.tempfitArgs;
      photometry := s.photometry;
    }

    /** `deepcopy(config)`: a new object holding the same values, sharing nothing. */
    constructor DeepCopy(orig: PipelineConfig)
      ensures Value() == orig.Value()
    {
      datadir := orig.datadir;
      rerundir := orig.rerundir;
      target := orig.target;
      tempfitArgs := orig.tempfitArgs;
      photometry := orig.photometry;
    }

    /** The input repository's `datadir` and `rerundir` variables, when it has them, replace the template's. */
    method UseInputDirectories(vars: map<string, string>)
      modifies this
      ensures Value() == InputDirectories(old(Value()), vars)
    {
      if "datadir" in vars {
        datadir := Some(vars["datadir"]);
      }
      if "rerundir" in vars {
        rerundir := Some(vars["rerundir"]);
      }
    }

    /**
     * `__configure_tempfit_magnitudes_pfs_config`: the filter loop over the
     * object's pfsConfig row, then the dictionary cut down to the entries
     * with a flux; with no dictionary the cut raises AttributeError.
     */
    method ConfigurePhotometry(fs: seq<Photometry.FilterFluxes>) returns (err: Option<Error>)
      modifies this
      ensures err.None? <==> old(photometry).Some?
      ensures err.None? ==> photometry.Some? && Photometry.ConfigurePhotometry(old(photometry), fs) == Ok(photometry.value)
      ensures err.Some? ==> Photometry.ConfigurePhotometry(old(photometry), fs) == Fail(err.value)
      ensures datadir == old(datadir) && rerundir == old(rerundir) && target == old(target) && tempfitArgs == old(tempfitArgs)
    {
      if photometry.None? {
        return Some(AttributeError);
      }
      var es := photometry.value;
      for n := 0 to |fs|
        invariant |es| == |old(photometry).value|
        invariant es == Photometry.ApplyFilters(old(photometry).value, fs[..n])
      {
        assert fs[..n + 1][..n] == fs[..n];
        var f := fs[n];
        if f.name.Some? && f.name.value != "none" {
          var j := 0;
          var found := false;
          while j < |es| && !found
            invariant 0 <= j <= |es|
            invariant !found ==> forall q :: 0 <= q < j ==> !Photometry.Matches(es[q].0, es[q].1, f.name.value)
            invariant found ==> j > 0 && Photometry.FirstMatch(es, f.name.value) == Some(j - 1)
            decreases |es| - j, !found
          {
            if Photometry.Matches(es[j].0, es[j].1, f.name.value) {
              found := true;
              assert Photometry.FirstMatch(es, f.name.value) == Some(j) by {
                Photometry.FirstMatchIs(es, f.name.value, j);
              }
            }
            j := j + 1;
          }
          if found {
            var pairs := [f.psf, f.fiber, f.total];
            var k := 0;
            while k < 3 && !Photometry.Usable(pairs[k])
              invariant 0 <= k <= 3
              invariant forall q :: 0 <= q < k ==> !Photometry.Usable(pairs[q])
            {
              k := k + 1;
            }
            assert pairs[0] == f.psf && pairs[1] == f.fiber && pairs[2] == f.total;
            if k < 3 {
              assert Photometry.FirstFinite(f) == Some((pairs[k].0.x, pairs[k].1.x)) by {
                assert k == 0 || k == 1 || k == 2;
              }
              var (flux, error) := (pairs[k].0.x, pairs[k].1.x);
              es := es[j - 1 := (es[j - 1].0, es[j - 1].1.(flux := Some(flux), fluxError := Some(error)))];
            }
          }
        }
      }
      assert fs[..|fs|] == fs;
      var kept: Photometry.Entries := [];
      for n := 0 to |es|
        invariant kept == Photometry.KeepMeasured(es[..n])
      {
        assert es[..n + 1][..n] == es[..n];
        if es[n].1.flux.Some? {
          kept := kept + [es[n]];
        }
      }
      assert es[..|es|] == es;
      photometry := Some(kept);
      return None;
    }

    /** One pass of the loop in `__configure_tempfit_stellar_param_priors`, for parameter `k`. */
    method ConfigurePrior(pp: Priors.Row, k: string) returns (err: Option<Error>)
      modifies this
      ensures err.None? ==> Priors.PriorStep(old(tempfitArgs), pp, k) == Ok(tempfitArgs)
      ensures err.Some? ==> Priors.PriorStep(old(tempfitArgs), pp, k) == Fail(err.value)
      ensures datadir == old(datadir) && rerundir == old(rerundir) && target == old(target) && photometry == old(photometry)
    {
      var values: Option<Priors.Arg> := if Priors.Present(tempfitArgs, k) then Some(tempfitArgs[k]) else None;
      var constant := Priors.Given(pp, k);
      if constant.Fail? {
        return Some(constant.error);
      }
      if constant.value {
        values := Some(Priors.Scalar(pp[k]));
      } else {
        var lo := Priors.Given(pp, Priors.MinKey(k));
        if lo.Fail? {
          return Some(lo.error);
        }
        if lo.value {
          var v := Priors.SetEnd(values, 0, pp[Priors.MinKey(k)]);
          if v.Fail? {
            return Some(v.error);
          }
          values := v.value;
        }
        var hi := Priors.Given(pp, Priors.MaxKey(k));
        if hi.Fail? {
          return Some(hi.error);
        }
        if hi.value {
          var v := Priors.SetEnd(values, 1, pp[Priors.MaxKey(k)]);
          if v.Fail? {
            return Some(v.error);
          }
          values := v.value;
        }
      }
      if values.Some? {
        tempfitArgs := tempfitArgs[k := values.value];
      }
      var dist := Priors.Distribution(tempfitArgs, pp, k);
      if dist.Fail? {
        return Some(dist.error);
      }
      if dist.value.Some? {
        tempfitArgs := tempfitArgs[Priors.DistKey(k) := Priors.Items(dist.value.value)];
      }
      return None;
    }

    /** `__configure_tempfit_stellar_param_priors`: the five parameters in order, stopping at an exception. */
    method ConfigurePriors(pp: Priors.Row) returns (err: Option<Error>)
      modifies this
      ensures err.None? ==> Priors.ConfigurePriors(old(tempfitArgs), pp) == Ok(tempfitArgs)
      ensures err.Some? ==> Priors.ConfigurePriors(old(tempfitArgs), pp) == Fail(err.value)
      ensures datadir == old(datadir) && rerundir == old(rerundir) && target == old(target) && photometry == old(photometry)
    {
      ghost var a0 := tempfitArgs;
      var names := Priors.PriorNames;
      for n := 0 to |names|
        invariant Priors.PriorSteps(a0, pp, names[..n]) == Ok(tempfitArgs)
        invariant datadir == old(datadir) && rerundir == old(rerundir) && target == old(target) && photometry == old(photometry)
      {
        Priors.PriorStepsSnoc(a0, pp, names, n);
        err := ConfigurePrior(pp, names[n]);
        if err.Some? {
          Priors.PriorStepsFailureSticks(a0, pp, names, n + 1);
          return;
        }
      }
      assert names[..|names|] == names;
      return None;
    }

    /**
     * `__configure_tempfit`: the object's fiber in the pfsConfig of the
     * first visit, its photometry, then the priors when the stellar
     * parameter table has a row for the object.
     */
    method ConfigureTempfit(svc: Services, objId: int) returns (err: Option<Error>)
      requires target.Some? && target.value.observations != []
      modifies this
      ensures TempfitFor(svc, objId, old(Value())) == (if err.None? then Ok(Value()) else Fail(err.value))
    {
      var fs := PfsConfigFilters(svc.pfsConfigs, target.value.observations[0].visit, objId);
      if fs.Fail? {
        return Some(fs.error);
      }
      err := ConfigurePhotometry(fs.value);
      if err.Some? {
        return;
      }
      if svc.stellarParams.None? || objId !in svc.stellarParams.value {
        return;
      }
      err := ConfigurePriors(svc.stellarParams.value[objId]);
    }
  }

  /** The fibers carrying `objId`, in file order (`np.where(pfs_config.objId == objid)`). */
  function FibersOf(fibers: seq<ConfigFiber>, objId: int): (r: seq<ConfigFiber>)
    ensures forall f :: f in r <==> f in fibers && f.objId == objId
    ensures |r| <= |fibers|
  {
    if fibers == [] then []
    else FibersOf(fibers[..|fibers| - 1], objId) + (if fibers[|fibers| - 1].objId == objId then [fibers[|fibers| - 1]] else [])
  }

  /**
   * The filters of the object's fiber in the pfsConfig of visit `visit`:
   * KeyError when there is no pfsConfig for the visit, ValueError unless
   * exactly one fiber carries the objId (`.item()` on the match indices).
   */
  function PfsConfigFilters(configs: map<int, seq<ConfigFiber>>, visit: int, objId: int): (r: Result<seq<Photometry.FilterFluxes>>)
    ensures r.Fail? <==> visit !in configs || |FibersOf(configs[visit], objId)| != 1
    ensures r.Fail? ==> r.error == (if visit !in configs then KeyError else ValueError)
    ensures r.Ok? ==> exists f :: f in configs[visit] && f.objId == objId && r.value == f.filters
  {
    if visit !in configs then Fail(KeyError)
    else
      var fs := FibersOf(configs[visit], objId);
      if |fs| != 1 then Fail(ValueError)
      else
        assert fs[0] in fs;
        Ok(fs[0].filters)
  }

  /** The template's directories unless the input repository defines them. */
  function InputDirectories(s: Settings, vars: map<string, string>): (r: Settings)
    ensures r.datadir == (if "datadir" in vars then Some(vars["datadir"]) else s.datadir)
    ensures r.rerundir == (if "rerundir" in vars then Some(vars["rerundir"]) else s.rerundir)
    ensures r.target == s.target && r.tempfitArgs == s.tempfitArgs && r.photometry == s.photometry
  {
    s.(datadir := if "datadir" in vars then Some(vars["datadir"]) else s.datadir,
       rerundir := if "rerundir" in vars then Some(vars["rerundir"]) else s.rerundir)
  }

  /** What `__configure_tempfit` makes of a configuration. */
  function TempfitFor(svc: Services, objId: int, s: Settings): Result<Settings>
    requires s.target.Some? && s.target.value.observations != []
  {
    match PfsConfigFilters(svc.pfsConfigs, s.target.value.observations[0].visit, objId)
    case Fail(e) => Fail(e)
    case Ok(fs) =>
    match Photometry.ConfigurePhotometry(s.photometry, fs)
    case Fail(e) => Fail(e)
    case Ok(es) =>
      var s1 := s.(photometry := Some(es));
      if svc.stellarParams.None? || objId !in svc.stellarParams.value then Ok(s1)
      else match Priors.ConfigurePriors(s1.tempfitArgs, svc.stellarParams.value[objId])
        case Fail(e) => Fail(e)
        case Ok(a) => Ok(s1.(tempfitArgs := a))
  }

  /**
   * One step of `__create_pipeline_configs`: None for an object without a
   * surviving visit, otherwise its config path and configuration.
   */
  function ObjectOutcome(svc: Services, template: Settings, c: Candidate): Result<Option<(string, Settings)>>
  {
    var mask := VisitMask(svc.repos, svc.files, svc.requiredProducts, c.rows);
    var t := TargetFor(svc, c.objId, c.rows, mask);
    if t.None? then Ok(None)
    else
      var s := InputDirectories(template, svc.inputVariables).(target := t);
      match TempfitFor(svc, c.objId, s)
      case Fail(e) => Fail(e)
      case Ok(s1) => Ok(Some((svc.configPath(t.value.identity), s1)))
  }

  /** One generated configuration. */
  datatype Generated = Generated(objId: int, path: string, settings: Settings)

  /** An object id and what configuring that object gives. */
  type Outcome = (int, Result<Option<(string, Settings)>>)

  /** The outcome of every object, in the order they were found. */
  function Outcomes(svc: Services, template: Settings, cs: seq<Candidate>): (os: seq<Outcome>)
    ensures |os| == |cs| && forall i :: 0 <= i < |cs| ==> os[i] == (cs[i].objId, ObjectOutcome(svc, template, cs[i]))
  {
    seq(|cs|, i requires 0 <= i < |cs| => (cs[i].objId, ObjectOutcome(svc, template, cs[i])))
  }

  /**
   * The `run` loop over the outcomes, the `q`-th generated object next:
   * the generator skips objects without a target, an exception ends the
   * run, and the loop breaks once `q` reaches `top`.
   */
  function GenerateFrom(os: seq<Outcome>, top: Option<int>, q: nat): (r: (seq<Generated>, Option<Error>))
    decreases |os|
  {
    if os == [] then ([], None)
    else match os[0].1
      case Fail(e) => ([], Some(e))
      case Ok(o) =>
        if o.None? then GenerateFrom(os[1..], top, q)
        else
          var g := Generated(os[0].0, o.value.0, o.value.1);
          if top.Some? && q + 1 >= top.value then ([g], None)
          else
            var rest := GenerateFrom(os[1..], top, q + 1);
            ([g] + rest.0, rest.1)
  }

  /** The loop never passes `top` objects. */
  lemma {:induction false} GenerateRespectsTop(os: seq<Outcome>, top: Option<int>, q: nat)
    requires top.Some? && q < top.value
    ensures |GenerateFrom(os, top, q).0| <= top.value - q
    decreases |os|
  {
    if os != [] && os[0].1.Ok? {
      if os[0].1.value.None? {
        GenerateRespectsTop(os[1..], top, q);
      } else if !(q + 1 >= top.value) {
        GenerateRespectsTop(os[1..], top, q + 1);
      }
    }
  }

  /** A `top` of zero or less still lets the first configured object through. */
  lemma TopBelowOneStopsAfterFirst(os: seq<Outcome>, top: int)
    requires top <= 1 && os != [] && os[0].1.Ok? && os[0].1.value.Some?
    ensures |GenerateFrom(os, Some(top), 0).0| == 1
  {
  }

  /**
   * Without `top` and without exceptions, one configuration is generated
   * per object that has a target, in the order the objects were found.
   */
  lemma {:induction false} GenerateAll(os: seq<Outcome>, q: nat)
    requires forall i :: 0 <= i < |os| ==> os[i].1.Ok?
    ensures GenerateFrom(os, None, q).1.None?
    ensures ObjIds(GenerateFrom(os, None, q).0) == Targeted(os)
    decreases |os|
  {
    if os != [] {
      var q' := if os[0].1.value.None? then q else q + 1;
      assert forall i :: 0 <= i < |os[1..]| ==> os[1..][i] == os[i + 1];
      GenerateAll(os[1..], q');
      if os[0].1.value.Some? {
        var rest := GenerateFrom(os[1..], None, q');
        var g := GenerateFrom(os, None, q).0[0];
        assert GenerateFrom(os, None, q).0 == [g] + rest.0;
        assert ObjIds([g] + rest.0) == [g.objId] + ObjIds(rest.0);
      }
    }
  }

  /** An exception stops the run before any later object is configured. */
  lemma {:induction false} GenerateStopsAtException(os: seq<Outcome>, top: Option<int>, q: nat, k: nat)
    requires k < |os| && os[k].1.Fail? && forall i :: 0 <= i < k ==> os[i].1.Ok?
    requires top.None?
    ensures GenerateFrom(os, top, q).1 == Some(os[k].1.error)
    ensures |GenerateFrom(os, top, q).0| <= k
    decreases k
  {
    if k > 0 {
      assert forall i :: 0 <= i < k - 1 ==> os[1..][i] == os[i + 1];
      GenerateStopsAtException(os[1..], top, if os[0].1.value.None? then q else q + 1, k - 1);
    }
  }

  function ObjIds(gs: seq<Generated>): (r: seq<int>)
    ensures |r| == |gs| && forall i :: 0 <= i < |gs| ==> r[i] == gs[i].objId
  {
    seq(|gs|, i requires 0 <= i < |gs| => gs[i].objId)
  }

  /** The ids of the objects that get a target, in order. */
  function Targeted(os: seq<Outcome>): seq<int>
    requires forall i :: 0 <= i < |os| ==> os[i].1.Ok?
    decreases |os|
  {
    if os == [] then []
    else
      assert forall i :: 0 <= i < |os[1..]| ==> os[1..][i] == os[i + 1];
      (if os[0].1.value.Some? then [os[0].0] else []) + Targeted(os[1..])
  }

  /** The saved files: everything generated, unless it is a dry run. */
  function Saved(gs: seq<Generated>, dryRun: bool): (r: seq<(string, Settings)>)
    ensures dryRun ==> r == []
    ensures !dryRun ==> |r| == |gs| && forall i :: 0 <= i < |gs| ==> r[i] == (gs[i].path, gs[i].settings)
  {
    if dryRun then [] else seq(|gs|, i requires 0 <= i < |gs| => (gs[i].path, gs[i].settings))
  }

  /**
   * `ConfigureScript.run` after the objects are found: nothing when none
   * were found or the run was not confirmed; otherwise the generated
   * configurations, saved unless `dryRun`, and the exception that ended
   * the run, if any.
   */
  method Run(svc: Services, template: PipelineConfig, cs: seq<Candidate>, top: Option<int>, dryRun: bool, confirmed: bool)
    returns (generated: seq<Generated>, saved: seq<(string, Settings)>, err: Option<Error>)
    ensures cs == [] || !confirmed ==> generated == [] && saved == [] && err.None?
    ensures cs != [] && confirmed ==> (generated, err) == GenerateFrom(Outcomes(svc, template.Value(), cs), top, 0)
    ensures saved == Saved(generated, dryRun)
  {
    generated, saved, err := [], [], None;
    if cs == [] || !confirmed {
      return;
    }
    ghost var tv := template.Value();
    ghost var os := Outcomes(svc, tv, cs);
    assert os[0..] == os;
    assert [] + GenerateFrom(os, top, 0).0 == GenerateFrom(os, top, 0).0;
    var q: nat := 0;
    var i := 0;
    var stop := false;
    while i < |cs| && !stop
      invariant 0 <= i <= |cs|
      invariant template.Value() == tv
      invariant saved == Saved(generated, dryRun)
      invariant stop ==> GenerateFrom(os, top, 0) == (generated, err)
      invariant !stop ==> err.None? && (top.Some? && q > 0 ==> q < top.value)
      invariant !stop ==> GenerateFrom(os, top, 0).0 == generated + GenerateFrom(os[i..], top, q).0
      invariant !stop ==> GenerateFrom(os, top, 0).1 == GenerateFrom(os[i..], top, q).1
    {
      var c := cs[i];
      GenerateStep(os, i, top, q);
      var o := ConfigureObject(svc, template, c);
      if o.Fail? {
        // the exception leaves the loop
        err := Some(o.error);
        assert generated + [] == generated;
        stop := true;
      } else if o.value.Some? {
        var (filename, settings) := o.value.value;
        var g := Generated(c.objId, filename, settings);
        ghost var prev := generated;
        generated := generated + [g];
        if !dryRun {
          saved := saved + [(filename, settings)];
        }
        SavedAppend(prev, g, dryRun);
        q := q + 1;
        if top.Some? && q >= top.value {
          // `top` objects are done
          stop := true;
        } else {
          AppendAssociative(prev, [g], GenerateFrom(os[i + 1..], top, q).0);
        }
      }
      i := i + 1;
    }
    if !stop {
      assert os[i..] == [];
      assert generated + [] == generated;
    }
  }

  /**
   * One object of `__create_pipeline_configs`: its visit mask and target,
   * and, when a visit survives, a deep copy of the template with the input
   * directories, the target and the tempfit settings.
   */
  method ConfigureObject(svc: Services, template: PipelineConfig, c: Candidate) returns (o: Result<Option<(string, Settings)>>)
    ensures o == ObjectOutcome(svc, template.Value(), c)
  {
    var mask := LocateRequiredProducts(svc.repos, svc.files, svc.requiredProducts, c.rows);
    var t := TargetFor(svc, c.objId, c.rows, mask[..]);
    if t.None? {
      return Ok(None);
    }
    var config := new PipelineConfig.DeepCopy(template);
    config.UseInputDirectories(svc.inputVariables);
    config.target := t;
    var e := config.ConfigureTempfit(svc, c.objId);
    if e.Some? {
      return Fail(e.value);
    }
    return Ok(Some((svc.configPath(t.value.identity), config.Value())));
  }

  /** One object of the loop over the outcomes. */
  lemma GenerateStep(os: seq<Outcome>, i: nat, top: Option<int>, q: nat)
    requires i < |os|
    ensures os[i].1.Fail? ==> GenerateFrom(os[i..], top, q) == ([], Some(os[i].1.error))
    ensures os[i].1.Ok? && os[i].1.value.None? ==> GenerateFrom(os[i..], top, q) == GenerateFrom(os[i + 1..], top, q)
    ensures os[i].1.Ok? && os[i].1.value.Some? ==>
      var g := Generated(os[i].0, os[i].1.value.value.0, os[i].1.value.value.1);
      var rest := GenerateFrom(os[i + 1..], top, q + 1);
      GenerateFrom(os[i..], top, q) == if top.Some? && q + 1 >= top.value then ([g], None) else ([g] + rest.0, rest.1)
  {
    assert os[i..][0] == os[i] && os[i..][1..] == os[i + 1..];
  }

  lemma SavedAppend(gs: seq<Generated>, g: Generated, dryRun: bool)
    ensures Saved(gs + [g], dryRun) == Saved(gs, dryRun) + (if dryRun then [] else [(g.path, g.settings)])
  {
  }

  lemma AppendAssociative<T>(a: seq<T>, b: seq<T>, c: seq<T>)
    ensures a + (b + c) == (a + b) + c
  {
  }
}
