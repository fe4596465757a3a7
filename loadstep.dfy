/**
 * The load step of the GA pipeline (gapipe/steps/loadstep.py): `run`
 * loads every required product type into the pipeline's cache, and
 * `validate` checks each (visit, product type) pair of the cached
 * products against the configured target.
 *
 * `get_product_from_cache` is a parameter (`fetch`) that returns what
 * validation reads from a cached product, a `Header`;
 * `get_product_identity` only shapes error messages and is not modelled.
 */
module LoadStep {
  import opened Wrappers
  import opened Identity
  import opened GaPipeline
  import Runner

  // ---------------------------------------------------------------------
  // run

  /**
   * The loop of `run` over the required product types on the cache: the
   * cache it leaves and the exception that stopped it. A failing type
   * keeps the empty entry `load_input_products` created for it.
   */
  function LoadEach(c: Cache, ps: seq<Product>, items: seq<VisitItem>, load: Loader): (r: (Cache, Option<Error>))
    requires forall p :: p in c ==> Kinded(p, c[p])
    ensures forall p :: p in r.0 ==> Kinded(p, r.0[p])
    ensures forall p :: p in r.0 ==> p in c || p in ps
    ensures forall p :: p in c ==> p in r.0
    ensures r.1.None? ==> forall p :: p in ps ==> p in r.0
    decreases |ps|
  {
    if ps == [] then (c, None)
    else
      var e := if ps[0] in c then c[ps[0]] else map[];
      var step := LoadAll(e, ps[0], items, load);
      if step.Fail? then (c[ps[0] := e], Some(step.error))
      else LoadEach(c[ps[0] := step.value.0], ps[1..], items, load)
  }

  /**
   * `run` fails exactly when one of the types is not one the loader knows
   * and there is a visit to load; the exception is then NotImplementedError.
   */
  lemma {:induction false} LoadEachFails(c: Cache, ps: seq<Product>, items: seq<VisitItem>, load: Loader)
    requires forall p :: p in c ==> Kinded(p, c[p])
    ensures LoadEach(c, ps, items, load).1.Some? <==> items != [] && exists p :: p in ps && p.kind.OtherKind?
    ensures LoadEach(c, ps, items, load).1.Some? ==> LoadEach(c, ps, items, load).1 == Some(NotImplementedError)
    decreases |ps|
  {
    if ps != [] {
      var e := if ps[0] in c then c[ps[0]] else map[];
      LoadAllFails(e, ps[0], items, load);
      if LoadAll(e, ps[0], items, load).Ok? {
        LoadEachFails(c[ps[0] := LoadAll(e, ps[0], items, load).value.0], ps[1..], items, load);
        if exists p :: p in ps && p.kind.OtherKind? {
          var p :| p in ps && p.kind.OtherKind?;
          assert p == ps[0] || p in ps[1..];
        }
      }
    }
  }

  /**
   * After a successful `run` every required type's entry holds every key
   * the visits ask for, and the entries of the other types are untouched.
   */
  lemma {:induction false} LoadEachCached(c: Cache, ps: seq<Product>, items: seq<VisitItem>, load: Loader)
    requires forall p :: p in c ==> Kinded(p, c[p])
    requires LoadEach(c, ps, items, load).1.None?
    ensures var c' := LoadEach(c, ps, items, load).0;
      forall p :: p in ps ==> p in c' && WantedAll(p, items) <= Cached(p, c'[p])
    ensures var c' := LoadEach(c, ps, items, load).0;
      forall p :: p in c && p !in ps ==> p in c' && c'[p] == c[p]
    decreases |ps|
  {
    if ps != [] {
      var p0 := ps[0];
      var e := if p0 in c then c[p0] else map[];
      var step := LoadAll(e, p0, items, load);
      var c1 := c[p0 := step.value.0];
      LoadAllCached(e, p0, items, load);
      LoadEachCached(c1, ps[1..], items, load);
      var c' := LoadEach(c, ps, items, load).0;
      assert c' == LoadEach(c1, ps[1..], items, load).0;
      if p0 !in ps[1..] {
        assert c'[p0] == c1[p0];
      } else {
        assert WantedAll(p0, items) <= Cached(p0, c'[p0]);
      }
      forall p | p in ps
        ensures p in c' && WantedAll(p, items) <= Cached(p, c'[p])
      {
        if p != p0 {
          assert p in ps[1..];
        }
      }
    }
  }

  /**
   * `run`: `load_input_products` for every required type, in order. A
   * list of types that is None cannot be iterated (TypeError); the first
   * exception leaves the step.
   */
  method Run(pl: Pipeline, required: Option<seq<Product>>, load: Loader) returns (r: Runner.Call)
    requires pl.Valid()
    modifies pl
    ensures pl.Valid()
    ensures pl.script == old(pl.script) && pl.config == old(pl.config) && pl.repo == old(pl.repo)
    ensures pl.trace == old(pl.trace) && pl.id == old(pl.id)
    ensures required.None? ==> r == Runner.Raised(TypeError) && pl.cache == old(pl.cache)
    ensures required == Some([]) ==> r == Runner.Done && pl.cache == old(pl.cache)
    ensures required.Some? && required.value != [] && old(pl.config).None? ==>
      var p := required.value[0];
      r == Runner.Raised(AttributeError) && pl.cache == Some(old(pl.CacheOrEmpty())[p := old(pl.EntryOf(p))])
    ensures required.Some? && required.value != [] && old(pl.config).Some? ==>
      var s := old(pl.config).value;
      var l := LoadEach(old(pl.CacheOrEmpty()), required.value, EnumerateVisits(s.target, s.visits), load);
      pl.cache == Some(l.0) && r == Runner.Outcome(l.1)
  {
    if required.None? {
      return Runner.Raised(TypeError);
    }
    var ps := required.value;
    if ps == [] {
      return Runner.Done;
    }
    if pl.config.None? {
      // the first type already raises: there is no configuration to read the visits from
      var q, failure := pl.LoadInputProducts(ps[0], load);
      return Runner.Raised(failure.value);
    }
    r := LoadTypes(pl, ps, load);
  }

  /** The loop of `run` once there is a configuration to read the visits from. */
  method LoadTypes(pl: Pipeline, ps: seq<Product>, load: Loader) returns (r: Runner.Call)
    requires pl.Valid() && pl.config.Some?
    modifies pl
    ensures pl.Valid()
    ensures pl.script == old(pl.script) && pl.config == old(pl.config) && pl.repo == old(pl.repo)
    ensures pl.trace == old(pl.trace) && pl.id == old(pl.id)
    ensures ps != [] ==> pl.cache.Some?
    ensures ps == [] ==> pl.cache == old(pl.cache)
    ensures var l := LoadEach(old(pl.CacheOrEmpty()), ps, EnumerateVisits(pl.config.value.target, pl.config.value.visits), load);
      pl.CacheOrEmpty() == l.0 && r == Runner.Outcome(l.1)
  {
    ghost var c0 := pl.CacheOrEmpty();
    ghost var items := EnumerateVisits(pl.config.value.target, pl.config.value.visits);
    var failure: Option<Error> := None;
    var i := 0;
    while i < |ps| && failure.None?
      invariant 0 <= i <= |ps|
      invariant pl.Valid()
      invariant pl.script == old(pl.script) && pl.config == old(pl.config) && pl.repo == old(pl.repo)
      invariant pl.trace == old(pl.trace) && pl.id == old(pl.id)
      invariant i == 0 ==> pl.cache == old(pl.cache)
      invariant i > 0 ==> pl.cache.Some?
      invariant failure.None? ==> LoadEach(c0, ps, items, load) == LoadEach(pl.CacheOrEmpty(), ps[i..], items, load)
      invariant failure.Some? ==> LoadEach(c0, ps, items, load) == (pl.CacheOrEmpty(), failure)
    {
      LoadEachStep(pl.CacheOrEmpty(), ps, i, items, load);
      var q;
      q, failure := pl.LoadInputProducts(ps[i], load);
      i := i + 1;
    }
    r := Runner.Outcome(failure);
  }

  /** One type of the loop of `run`: it stops the loop, or the loop goes on from the next type. */
  lemma LoadEachStep(c: Cache, ps: seq<Product>, i: nat, items: seq<VisitItem>, load: Loader)
    requires forall p :: p in c ==> Kinded(p, c[p])
    requires i < |ps|
    ensures var e := if ps[i] in c then c[ps[i]] else map[];
      var step := LoadAll(e, ps[i], items, load);
      LoadEach(c, ps[i..], items, load) ==
        if step.Fail? then (c[ps[i] := e], Some(step.error)) else LoadEach(c[ps[i] := step.value.0], ps[i + 1..], items, load)
  {
    assert ps[i..][0] == ps[i] && ps[i..][1..] == ps[i + 1..];
  }

  // ---------------------------------------------------------------------
  // validate

  /** The `target` of a PfsSingle: the fields compared at validation. */
  datatype Target = Target(catId: int, tract: int, patch: string, objId: int)

  /** What validation reads from a cached product. */
  datatype Header =
    | SingleHeader(nVisit: int, visits: seq<int>, target: Target)
    | ArraySetHeader(visit: int)
      /** the `observations.visit` list of each spectrum, in key order */
    | TargetSpectraHeader(spectra: seq<seq<int>>)
    | DesignHeader(visit: int, catIds: seq<int>, objIds: seq<int>)

  /** `get_product_from_cache(product, visit, identity)`. */
  type Fetch = (Product, VisitItem) -> Result<Header>

  /**
   * `__validate_product`: None when the product agrees with the visit and
   * the configured target, else the exception. A header of another shape
   * than the product type expects lacks the attribute read
   * (AttributeError); a target spectra file without spectra has no first
   * key (IndexError); an identity field left as None never matches.
   */
  function ProductFailure(t: Product, visit: int, d: Header, config: ObjectIdentity): (r: Option<Error>)
    ensures t.kind.OtherKind? && !t.kind.isTargetSpectra ==> r == Some(NotImplementedError)
    ensures t.kind == FiberArray ==>
      (r.None? <==> d.SingleHeader? && d.nVisit == 1 && visit in d.visits &&
                    config.catId == Some(d.target.catId) && config.objId == Some(d.target.objId))
    ensures t.kind == FiberArraySet ==> (r.None? <==> d.ArraySetHeader? && d.visit == visit)
    ensures t.kind == OtherKind(true) ==>
      (r.None? <==> d.TargetSpectraHeader? && d.spectra != [] && d.spectra[0] != [] && d.spectra[0][0] == visit)
    ensures t.kind.DesignKind? ==>
      (r.None? <==> d.DesignHeader? && (t.kind.isConfig ==> d.visit == visit) &&
                    config.catId.Some? && config.catId.value in d.catIds &&
                    config.objId.Some? && config.objId.value in d.objIds)
    ensures r.Some? ==> r.value in {AttributeError, IndexError, PipelineError, NotImplementedError}
  {
    match t.kind
    case FiberArray =>
      if !d.SingleHeader? then Some(AttributeError)
      else if d.nVisit != 1 then Some(PipelineError)
      else if visit !in d.visits then Some(PipelineError)
      else if config.catId != Some(d.target.catId) then Some(PipelineError)
      else if config.objId != Some(d.target.objId) then Some(PipelineError)
      else None
    case FiberArraySet =>
      if !d.ArraySetHeader? then Some(AttributeError)
      else if visit != d.visit then Some(PipelineError)
      else None
    case OtherKind(isTargetSpectra) =>
      if !isTargetSpectra then Some(NotImplementedError)
      else if !d.TargetSpectraHeader? then Some(AttributeError)
      else if d.spectra == [] || d.spectra[0] == [] then Some(IndexError)
      else if visit != d.spectra[0][0] then Some(PipelineError)
      else None
    case DesignKind(isConfig) =>
      if !d.DesignHeader? then Some(AttributeError)
      else if isConfig && visit != d.visit then Some(PipelineError)
      else if config.catId.None? || config.catId.value !in d.catIds then Some(PipelineError)
      else if config.objId.None? || config.objId.value !in d.objIds then Some(PipelineError)
      else None
  }

  /**
   * One turn of the inner loop of `validate` for a fetched product: the
   * target check of PfsSingle files, the type check, then
   * `__validate_product`. `target` is the target remembered so far;
   * `remember` says whether the turn records the target it saw.
   */
  function CheckOne(t: Product, visit: int, d: Header, config: ObjectIdentity, target: Option<Target>, remember: bool)
    : (r: Result<Option<Target>>)
  {
    if t.kind == FiberArray && target.Some? && (!d.SingleHeader? || target.value != d.target) then
      Fail(if d.SingleHeader? then PipelineError else AttributeError)
    else if t.kind == OtherKind(false) then Fail(NotImplementedError)
    else
      var e := ProductFailure(t, visit, d, config);
      if e.Some? then Fail(e.value)
      else if remember && t.kind == FiberArray then Ok(Some(d.target))
      else Ok(target)
  }

  /** The (visit, product type) pairs of the two loops, visits outer, types inner. */
  function Pairs(items: seq<VisitItem>, ts: seq<Product>): (r: seq<(VisitItem, Product)>)
    ensures forall it, t :: (it, t) in r <==> it in items && t in ts
    decreases |items|
  {
    if items == [] then []
    else
      var row := seq(|ts|, j requires 0 <= j < |ts| => (items[0], ts[j]));
      var rest := Pairs(items[1..], ts);
      assert forall it, t :: (it, t) in row <==> it == items[0] && t in ts by {
        forall it, t | it == items[0] && t in ts
          ensures (it, t) in row
        {
          var j :| 0 <= j < |ts| && ts[j] == t;
          assert row[j] == (it, t);
        }
      }
      assert forall it :: it in items <==> it == items[0] || it in items[1..];
      row + rest
  }

  /** The loops over the pairs, threading the remembered target. */
  function CheckPairs(ps: seq<(VisitItem, Product)>, fetch: Fetch, config: ObjectIdentity,
                      target: Option<Target>, remember: bool): (r: Result<Option<Target>>)
    decreases |ps|
  {
    if ps == [] then Ok(target)
    else
      var d := fetch(ps[0].1, ps[0].0);
      if d.Fail? then Fail(d.error)
      else
        var s := CheckOne(ps[0].1, ps[0].0.visit, d.value, config, target, remember);
        if s.Fail? then s else CheckPairs(ps[1..], fetch, config, s.value, remember)
  }

  /** Both loops of `validate` over the enumerated visits; there is nothing to iterate when there are none. */
  function ValidateItems(items: seq<VisitItem>, config: ObjectIdentity, required: Option<seq<Product>>, fetch: Fetch,
                         remember: bool): Runner.Call {
    if items == [] then Runner.Done
    else if required.None? then Runner.Raised(TypeError)
    else
      var r := CheckPairs(Pairs(items, required.value), fetch, config, None, remember);
      if r.Fail? then Runner.Raised(r.error) else Runner.Done
  }

  /**
   * `validate` as written: `target` starts as None and is never assigned,
   * so the comparison of PfsSingle targets never runs.
   */
  function ValidateAsWritten(s: Settings, required: Option<seq<Product>>, fetch: Fetch): Runner.Call {
    ValidateItems(EnumerateVisits(s.target, s.visits), s.target, required, fetch, false)
  }

  /** `validate` with the first PfsSingle's target remembered and every later one compared with it. */
  function Validate(s: Settings, required: Option<seq<Product>>, fetch: Fetch): Runner.Call {
    ValidateItems(EnumerateVisits(s.target, s.visits), s.target, required, fetch, true)
  }

  /** A pair passes on its own: its product is fetched and passes `__validate_product`. */
  predicate Accepted(p: (VisitItem, Product), fetch: Fetch, config: ObjectIdentity) {
    var d := fetch(p.1, p.0);
    d.Ok? && ProductFailure(p.1, p.0.visit, d.value, config).None?
  }

  /** The target a pair contributes to the comparison: that of a fetched PfsSingle. */
  function SingleTarget(p: (VisitItem, Product), fetch: Fetch): Option<Target> {
    var d := fetch(p.1, p.0);
    if p.1.kind == FiberArray && d.Ok? && d.value.SingleHeader? then Some(d.value.target) else None
  }

  /** Every pair passes on its own. */
  predicate AllAccepted(ps: seq<(VisitItem, Product)>, fetch: Fetch, config: ObjectIdentity) {
    forall k :: 0 <= k < |ps| ==> Accepted(ps[k], fetch, config)
  }

  /** All PfsSingle files among the pairs carry one target. */
  predicate OneTarget(ps: seq<(VisitItem, Product)>, fetch: Fetch) {
    forall k, l :: 0 <= k < |ps| && 0 <= l < |ps| && SingleTarget(ps[k], fetch).Some? && SingleTarget(ps[l], fetch).Some? ==>
      SingleTarget(ps[k], fetch) == SingleTarget(ps[l], fetch)
  }

  /** As written, the target is never remembered: the loops pass exactly when every pair passes on its own. */
  lemma {:induction false} CheckPairsAsWritten(ps: seq<(VisitItem, Product)>, fetch: Fetch, config: ObjectIdentity)
    ensures CheckPairs(ps, fetch, config, None, false).Ok? <==> AllAccepted(ps, fetch, config)
    ensures CheckPairs(ps, fetch, config, None, false).Ok? ==> CheckPairs(ps, fetch, config, None, false).value.None?
    decreases |ps|
  {
    if ps != [] {
      CheckPairsAsWritten(ps[1..], fetch, config);
      if forall k :: 1 <= k < |ps| ==> Accepted(ps[k], fetch, config) {
        assert forall k :: 0 <= k < |ps| - 1 ==> Accepted(ps[1..][k], fetch, config);
      }
      if forall k :: 0 <= k < |ps| - 1 ==> Accepted(ps[1..][k], fetch, config) {
        assert forall k :: 1 <= k < |ps| ==> Accepted(ps[k], fetch, config) by {
          forall k | 1 <= k < |ps| ensures Accepted(ps[k], fetch, config) {
            assert ps[k] == ps[1..][k - 1];
          }
        }
      }
    }
  }

  /** With a target remembered, the loops pass when every pair passes and every PfsSingle carries that target. */
  lemma {:induction false} CheckPairsRemembered(ps: seq<(VisitItem, Product)>, fetch: Fetch, config: ObjectIdentity, t0: Target)
    ensures CheckPairs(ps, fetch, config, Some(t0), true).Ok? <==>
      forall k :: 0 <= k < |ps| ==> Accepted(ps[k], fetch, config) && SingleTarget(ps[k], fetch) in {None, Some(t0)}
    decreases |ps|
  {
    if ps != [] {
      CheckPairsRemembered(ps[1..], fetch, config, t0);
      var rest := ps[1..];
      assert forall k :: 1 <= k < |ps| ==> ps[k] == rest[k - 1];
      var d := fetch(ps[0].1, ps[0].0);
      if d.Ok? {
        var s := CheckOne(ps[0].1, ps[0].0.visit, d.value, config, Some(t0), true);
        if s.Ok? {
          assert s.value == Some(t0);
        }
      }
      if forall k :: 0 <= k < |ps| ==> Accepted(ps[k], fetch, config) && SingleTarget(ps[k], fetch) in {None, Some(t0)} {
        assert forall k :: 0 <= k < |rest| ==> Accepted(rest[k], fetch, config) && SingleTarget(rest[k], fetch) in {None, Some(t0)};
      }
    }
  }

  /**
   * With the target remembered, the loops pass exactly when every pair
   * passes on its own and all PfsSingle files carry one target.
   */
  lemma {:induction false} CheckPairsCorrected(ps: seq<(VisitItem, Product)>, fetch: Fetch, config: ObjectIdentity)
    ensures CheckPairs(ps, fetch, config, None, true).Ok? <==> AllAccepted(ps, fetch, config) && OneTarget(ps, fetch)
    decreases |ps|
  {
    if ps != [] {
      var rest := ps[1..];
      assert forall k :: 1 <= k < |ps| ==> ps[k] == rest[k - 1];
      var d := fetch(ps[0].1, ps[0].0);
      if SingleTarget(ps[0], fetch).Some? {
        var t0 := d.value.target;
        CheckPairsRemembered(rest, fetch, config, t0);
      } else {
        CheckPairsCorrected(rest, fetch, config);
        if d.Ok? && ProductFailure(ps[0].1, ps[0].0.visit, d.value, config).None? {
          assert CheckOne(ps[0].1, ps[0].0.visit, d.value, config, None, true) == Ok(None);
        }
      }
    }
  }

  /** `validate` as written passes exactly when every (visit, type) pair passes on its own. */
  lemma ValidateAsWrittenMeaning(items: seq<VisitItem>, config: ObjectIdentity, required: Option<seq<Product>>, fetch: Fetch)
    ensures ValidateItems(items, config, required, fetch, false) == Runner.Done <==>
      items == [] || (required.Some? && AllAccepted(Pairs(items, required.value), fetch, config))
  {
    if items != [] && required.Some? {
      var ps := Pairs(items, required.value);
      CheckPairsAsWritten(ps, fetch, config);
      var r := CheckPairs(ps, fetch, config, None, false);
      assert ValidateItems(items, config, required, fetch, false) == (if r.Fail? then Runner.Raised(r.error) else Runner.Done);
    }
  }

  /**
   * The corrected `validate` passes exactly when every pair passes on its
   * own and all PfsSingle files of the object carry the same target.
   */
  lemma ValidateMeaning(items: seq<VisitItem>, config: ObjectIdentity, required: Option<seq<Product>>, fetch: Fetch)
    ensures ValidateItems(items, config, required, fetch, true) == Runner.Done <==>
      items == [] || (required.Some? && AllAccepted(Pairs(items, required.value), fetch, config) &&
                      OneTarget(Pairs(items, required.value), fetch))
  {
    if items != [] && required.Some? {
      var ps := Pairs(items, required.value);
      CheckPairsCorrected(ps, fetch, config);
      var r := CheckPairs(ps, fetch, config, None, true);
      assert ValidateItems(items, config, required, fetch, true) == (if r.Fail? then Runner.Raised(r.error) else Runner.Done);
    }
  }

  /**
   * Two PfsSingle files of one object whose targets differ in their tract:
   * the loops as written accept them, the corrected ones raise.
   */
  lemma DifferentTargetsPass()
    ensures var single := Product("PfsSingle", FiberArray);
      var config := ObjectIdentity(Some(1), Some(2), Some("1,1"), Some(3), None, None);
      var ps := [(VisitItem(0, 10, map[]), single), (VisitItem(1, 11, map[]), single)];
      var fetch: Fetch := (t: Product, it: VisitItem) => Ok(SingleHeader(1, [it.visit], Target(1, it.visit, "1,1", 3)));
      CheckPairs(ps, fetch, config, None, false) == Ok(None) &&
      CheckPairs(ps, fetch, config, None, true) == Fail(PipelineError)
  {
    var single := Product("PfsSingle", FiberArray);
    var config := ObjectIdentity(Some(1), Some(2), Some("1,1"), Some(3), None, None);
    var ps := [(VisitItem(0, 10, map[]), single), (VisitItem(1, 11, map[]), single)];
    var fetch: Fetch := (t: Product, it: VisitItem) => Ok(SingleHeader(1, [it.visit], Target(1, it.visit, "1,1", 3)));
    var t10 := Target(1, 10, "1,1", 3);
    assert ps[1..] == [ps[1]];
    assert CheckOne(single, 10, SingleHeader(1, [10], t10), config, None, false) == Ok(None);
    assert CheckOne(single, 11, SingleHeader(1, [11], Target(1, 11, "1,1", 3)), config, None, false) == Ok(None);
    assert CheckPairs(ps[1..], fetch, config, None, false) == Ok(None);
    assert CheckOne(single, 10, SingleHeader(1, [10], t10), config, None, true) == Ok(Some(t10));
    assert CheckPairs(ps[1..], fetch, config, Some(t10), true) == Fail(PipelineError);
  }
}
