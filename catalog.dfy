/**
 * The catalog script (scripts/catalog/catalogscript.py): compiles one
 * catalog from the pfsGAObject products of the objects found, with the
 * visits they were observed in, the arms of each visit, one table row per
 * object and the stellar parameters the default algorithm measured.
 *
 * Loading a product is a parameter: each object found comes with its
 * loaded pfsGAObject, or None where the file is missing. The design files
 * of the visits (PfsConfig) are a map from visit to their fibers.
 */
module Catalog {
  import opened Wrappers
  import Jobs

  /** One observation of an object: a visit with its design, times and arm letters. */
  datatype Observation = Observation(visit: int, designId: int, obsTime: string, expTime: real, arm: string)

  /** A stellar parameter some algorithm measured. */
  datatype Measurement = Measurement(methodName: string, param: string, value: real, err: real)

  /** A pfsGAObject product, as far as the catalog reads it. */
  datatype GaObject = GaObject(catId: int, objId: int, observations: seq<Observation>, stellarParams: seq<Measurement>)

  /** A fiber of a PfsConfig: its object and the target columns the catalog copies. */
  datatype Fiber = Fiber(objId: int, ra: real, dec: real, epoch: string, pmRa: real, pmDec: real, parallax: real,
                         targetType: int, proposalId: string, obCode: string)

  /** A visit of the catalog, with what the first observation in it said. */
  datatype Entry = Entry(visit: int, designId: int, obsTime: string, expTime: real)

  /** The visits seen so far and, for each, the arm strings observed in it. */
  datatype Visits = Visits(entries: seq<Entry>, arms: map<int, set<string>>)

  /** A row of the catalog table. */
  datatype Row = Row(catId: int, objId: int, fiber: Fiber, nVisitB: nat, nVisitM: nat, nVisitR: nat, nVisitN: nat,
                     flag: bool, status: string)

  /** The measured columns, as (value, error) pairs. */
  datatype Measured = Measured(vLos: seq<(real, real)>, tEff: seq<(real, real)>, mH: seq<(real, real)>, logG: seq<(real, real)>)

  /** A catalog: the shared catId, the visits, the rows and the measured columns. */
  datatype Catalog = Catalog(catId: Option<int>, visits: Visits, rows: seq<Row>, measured: Measured)

  const NoVisits: Visits := Visits([], map[])
  const NoMeasurements: Measured := Measured([], [], [], [])
  const Empty: Catalog := Catalog(None, NoVisits, [], NoMeasurements)

  /** The algorithm whose measurements the catalog takes. */
  const Default: string := "ga1dpipe"

  // ---------------------------------------------------------------------
  // Visits

  /** The visit numbers of the entries, in order. */
  function Ids(entries: seq<Entry>): (r: seq<int>)
    ensures |r| == |entries|
    ensures forall k :: 0 <= k < |r| ==> r[k] == entries[k].visit
  {
    seq(|entries|, k requires 0 <= k < |entries| => entries[k].visit)
  }

  function EntryOf(o: Observation): Entry {
    Entry(o.visit, o.designId, o.obsTime, o.expTime)
  }

  /**
   * One observation seen: a visit not yet listed is appended with its
   * design and times and an empty arm set; either way the arm string joins
   * the visit's set.
   */
  function See(vs: Visits, o: Observation): Visits {
    if o.visit in Ids(vs.entries) then
      Visits(vs.entries, vs.arms[o.visit := (if o.visit in vs.arms then vs.arms[o.visit] else {}) + {o.arm}])
    else
      Visits(vs.entries + [EntryOf(o)], vs.arms[o.visit := {o.arm}])
  }

  /** The observations seen one after the other. */
  function Seen(vs: Visits, obs: seq<Observation>): Visits {
    if obs == [] then vs else See(Seen(vs, obs[..|obs| - 1]), obs[|obs| - 1])
  }

  /** The loop over an object's observations. */
  method AddVisits(vs: Visits, obs: seq<Observation>) returns (r: Visits)
    ensures r == Seen(vs, obs)
  {
    var visit := Ids(vs.entries);
    r := vs;
    var i := 0;
    while i < |obs|
      invariant 0 <= i <= |obs|
      invariant r == Seen(vs, obs[..i]) && visit == Ids(r.entries)
    {
      var o := obs[i];
      var arm := r.arms;
      var entries := r.entries;
      if o.visit !in visit {
        IdsAppend(entries, EntryOf(o));
        visit := visit + [o.visit];
        entries := entries + [EntryOf(o)];
        arm := arm[o.visit := {}];
      }
      var current := if o.visit in arm then arm[o.visit] else {};
      if o.visit !in Ids(r.entries) {
        assert current + {o.arm} == {o.arm};
      }
      arm := arm[o.visit := current + {o.arm}];
      r := Visits(entries, arm);
      assert obs[..i + 1][..i] == obs[..i];
      i := i + 1;
    }
    assert obs[..i] == obs;
  }

  /** Seeing two runs of observations is seeing them joined. */
  lemma {:induction false} SeenAppend(vs: Visits, a: seq<Observation>, b: seq<Observation>)
    ensures Seen(vs, a + b) == Seen(Seen(vs, a), b)
    decreases |b|
  {
    if b == [] {
      assert a + b == a;
    } else {
      assert (a + b)[..|a + b| - 1] == a + b[..|b| - 1];
      SeenAppend(vs, a, b[..|b| - 1]);
    }
  }

  /** The index of the first observation in visit `v`, or `|obs|` when there is none. */
  function FirstIndex(obs: seq<Observation>, v: int): (r: nat)
    ensures r <= |obs|
    ensures r < |obs| ==> obs[r].visit == v
    ensures forall i :: 0 <= i < r ==> obs[i].visit != v
  {
    if obs == [] then 0
    else if obs[0].visit == v then 0
    else 1 + FirstIndex(obs[1..], v)
  }

  lemma FirstIndexAppend(obs: seq<Observation>, o: Observation, v: int)
    ensures FirstIndex(obs + [o], v) ==
      if FirstIndex(obs, v) < |obs| then FirstIndex(obs, v) else if o.visit == v then |obs| else |obs| + 1
  {
    assert forall i :: 0 <= i < |obs| ==> (obs + [o])[i] == obs[i];
    assert (obs + [o])[|obs|] == o;
  }

  lemma IdsAppend(e: seq<Entry>, x: Entry)
    ensures Ids(e + [x]) == Ids(e) + [x.visit]
  {
  }

  /** Every observed visit is listed. */
  ghost predicate Covers(vs: Visits, obs: seq<Observation>) {
    forall i :: 0 <= i < |obs| ==> obs[i].visit in Ids(vs.entries)
  }

  /** Each entry is what the first observation in its visit said. */
  ghost predicate FirstSightings(vs: Visits, obs: seq<Observation>) {
    forall k :: 0 <= k < |vs.entries| ==>
      FirstIndex(obs, vs.entries[k].visit) < |obs| &&
      vs.entries[k] == EntryOf(obs[FirstIndex(obs, vs.entries[k].visit)])
  }

  /** Entries are in the order of their first observations, so no visit is listed twice. */
  ghost predicate InSightingOrder(vs: Visits, obs: seq<Observation>) {
    forall k, l :: 0 <= k < l < |vs.entries| ==>
      FirstIndex(obs, vs.entries[k].visit) < FirstIndex(obs, vs.entries[l].visit)
  }

  /** The listed visits are the ones with an arm set. */
  ghost predicate ArmsKeyed(vs: Visits) {
    forall v :: v in vs.arms <==> v in Ids(vs.entries)
  }

  /** A visit's arm set holds exactly the arm strings observed in it. */
  ghost predicate ArmsObserved(vs: Visits, obs: seq<Observation>) {
    forall v, a :: v in vs.arms ==> (a in vs.arms[v] <==> exists i :: 0 <= i < |obs| && obs[i].visit == v && obs[i].arm == a)
  }

  /**
   * The visits seen from the observations `obs`: every visit of `obs` is
   * listed, once, in the order first observed, with what its first
   * observation said and the arm strings of all its observations.
   */
  ghost predicate Describes(vs: Visits, obs: seq<Observation>) {
    Covers(vs, obs) && FirstSightings(vs, obs) && InSightingOrder(vs, obs) && ArmsKeyed(vs) && ArmsObserved(vs, obs)
  }

  /** A visit not listed yet was not observed yet. */
  lemma Unseen(vs: Visits, obs: seq<Observation>, v: int)
    requires Covers(vs, obs) && v !in Ids(vs.entries)
    ensures FirstIndex(obs, v) == |obs|
  {
  }

  lemma SeeCovers(vs: Visits, obs: seq<Observation>, o: Observation)
    requires Covers(vs, obs)
    ensures Covers(See(vs, o), obs + [o])
  {
    var obs' := obs + [o];
    var vs' := See(vs, o);
    if o.visit !in Ids(vs.entries) {
      IdsAppend(vs.entries, EntryOf(o));
    }
    forall i | 0 <= i < |obs'|
      ensures obs'[i].visit in Ids(vs'.entries)
    {
      if i < |obs| {
        assert obs'[i] == obs[i];
      }
    }
  }

  lemma SeeFirstSightings(vs: Visits, obs: seq<Observation>, o: Observation)
    requires Covers(vs, obs) && FirstSightings(vs, obs)
    ensures FirstSightings(See(vs, o), obs + [o])
  {
    var obs' := obs + [o];
    var vs' := See(vs, o);
    forall k | 0 <= k < |vs'.entries|
      ensures FirstIndex(obs', vs'.entries[k].visit) < |obs'|
      ensures vs'.entries[k] == EntryOf(obs'[FirstIndex(obs', vs'.entries[k].visit)])
    {
      FirstIndexAppend(obs, o, vs'.entries[k].visit);
      if k == |vs.entries| {
        Unseen(vs, obs, o.visit);
        assert obs'[|obs|] == o;
      } else {
        assert obs'[FirstIndex(obs, vs.entries[k].visit)] == obs[FirstIndex(obs, vs.entries[k].visit)];
      }
    }
  }

  lemma SeeInSightingOrder(vs: Visits, obs: seq<Observation>, o: Observation)
    requires Covers(vs, obs) && FirstSightings(vs, obs) && InSightingOrder(vs, obs)
    ensures InSightingOrder(See(vs, o), obs + [o])
  {
    var obs' := obs + [o];
    var vs' := See(vs, o);
    forall k, l | 0 <= k < l < |vs'.entries|
      ensures FirstIndex(obs', vs'.entries[k].visit) < FirstIndex(obs', vs'.entries[l].visit)
    {
      FirstIndexAppend(obs, o, vs'.entries[k].visit);
      FirstIndexAppend(obs, o, vs'.entries[l].visit);
      if l == |vs.entries| {
        Unseen(vs, obs, o.visit);
      }
    }
  }

  lemma SeeArmsKeyed(vs: Visits, o: Observation)
    requires ArmsKeyed(vs)
    ensures ArmsKeyed(See(vs, o))
  {
    if o.visit !in Ids(vs.entries) {
      IdsAppend(vs.entries, EntryOf(o));
    }
  }

  lemma SeeArmsObserved(vs: Visits, obs: seq<Observation>, o: Observation)
    requires Covers(vs, obs) && ArmsKeyed(vs) && ArmsObserved(vs, obs)
    ensures ArmsObserved(See(vs, o), obs + [o])
  {
    var obs' := obs + [o];
    var vs' := See(vs, o);
    forall v, a | v in vs'.arms
      ensures a in vs'.arms[v] <==> exists i :: 0 <= i < |obs'| && obs'[i].visit == v && obs'[i].arm == a
    {
      assert obs'[|obs|] == o;
      if exists i :: 0 <= i < |obs'| && obs'[i].visit == v && obs'[i].arm == a {
        var i :| 0 <= i < |obs'| && obs'[i].visit == v && obs'[i].arm == a;
        if i < |obs| {
          assert obs'[i] == obs[i];
        }
      }
      if v == o.visit && o.visit !in Ids(vs.entries) {
        Unseen(vs, obs, v);
      } else if a in vs'.arms[v] && a != o.arm {
        var i :| 0 <= i < |obs| && obs[i].visit == v && obs[i].arm == a;
        assert obs'[i] == obs[i];
      } else if a in vs'.arms[v] && v != o.visit {
        var i :| 0 <= i < |obs| && obs[i].visit == v && obs[i].arm == a;
        assert obs'[i] == obs[i];
      }
    }
  }

  /** One more observation keeps the description. */
  lemma SeeDescribes(vs: Visits, obs: seq<Observation>, o: Observation)
    requires Describes(vs, obs)
    ensures Describes(See(vs, o), obs + [o])
  {
    SeeCovers(vs, obs, o);
    SeeFirstSightings(vs, obs, o);
    SeeInSightingOrder(vs, obs, o);
    SeeArmsKeyed(vs, o);
    SeeArmsObserved(vs, obs, o);
  }

  /**
   * The visits seen from a run of observations are that run's visits: each
   * listed once, in the order first observed, with the design and times of
   * that first observation, and the arm strings of all its observations.
   */
  lemma {:induction false} SeenDescribes(obs: seq<Observation>)
    ensures Describes(Seen(NoVisits, obs), obs)
    decreases |obs|
  {
    if obs != [] {
      SeenDescribes(obs[..|obs| - 1]);
      SeeDescribes(Seen(NoVisits, obs[..|obs| - 1]), obs[..|obs| - 1], obs[|obs| - 1]);
      assert obs[..|obs| - 1] + [obs[|obs| - 1]] == obs;
    }
  }

  /** No visit is listed twice. */
  lemma NoVisitTwice(vs: Visits, obs: seq<Observation>)
    requires Describes(vs, obs)
    ensures forall k, l :: 0 <= k < l < |vs.entries| ==> vs.entries[k].visit != vs.entries[l].visit
  {
  }

  // ---------------------------------------------------------------------
  // Rows and measured columns

  /** `count_arms`: the observations whose arm string contains the letter. */
  function CountArm(obs: seq<Observation>, letter: char): (n: nat)
    ensures n <= |obs|
    ensures n == |obs| <==> forall i :: 0 <= i < |obs| ==> letter in obs[i].arm
    ensures n == 0 <==> forall i :: 0 <= i < |obs| ==> letter !in obs[i].arm
  {
    if obs == [] then 0
    else CountArm(obs[..|obs| - 1], letter) + (if letter in obs[|obs| - 1].arm then 1 else 0)
  }

  /** The fibers of a design that carry the object. */
  function Matches(fibers: seq<Fiber>, objId: int): (r: seq<Fiber>)
    ensures |r| <= |fibers|
    ensures forall f :: f in r <==> f in fibers && f.objId == objId
  {
    if fibers == [] then []
    else Matches(fibers[..|fibers| - 1], objId) + (if fibers[|fibers| - 1].objId == objId then [fibers[|fibers| - 1]] else [])
  }

  /** The measured column of a parameter. */
  function Column(m: Measured, param: string): seq<(real, real)> {
    match param
    case "v_los" => m.vLos
    case "T_eff" => m.tEff
    case "M_H" => m.mH
    case "log_g" => m.logG
    case _ => []
  }

  /** The parameters the catalog has a column for. */
  predicate Tabulated(param: string) {
    param == "v_los" || param == "T_eff" || param == "M_H" || param == "log_g"
  }

  /** One measurement taken: appended to its column when the default algorithm made it. */
  function Take(m: Measured, x: Measurement): Measured {
    if x.methodName != Default then m
    else if x.param == "v_los" then m.(vLos := m.vLos + [(x.value, x.err)])
    else if x.param == "T_eff" then m.(tEff := m.tEff + [(x.value, x.err)])
    else if x.param == "M_H" then m.(mH := m.mH + [(x.value, x.err)])
    else if x.param == "log_g" then m.(logG := m.logG + [(x.value, x.err)])
    else m
  }

  function TakeAll(m: Measured, xs: seq<Measurement>): Measured {
    if xs == [] then m else Take(TakeAll(m, xs[..|xs| - 1]), xs[|xs| - 1])
  }

  /** The (value, error) pairs of the default algorithm's measurements of `param`, in order. */
  function Picked(xs: seq<Measurement>, param: string): (r: seq<(real, real)>)
    ensures |r| <= |xs|
    ensures forall p :: p in r <==> exists i :: 0 <= i < |xs| && xs[i].methodName == Default && xs[i].param == param &&
                                                 p == (xs[i].value, xs[i].err)
  {
    if xs == [] then []
    else
      var x := xs[|xs| - 1];
      var r := Picked(xs[..|xs| - 1], param) + (if x.methodName == Default && x.param == param then [(x.value, x.err)] else []);
      assert forall i :: 0 <= i < |xs| - 1 ==> xs[..|xs| - 1][i] == xs[i];
      r
  }

  /**
   * Every tabulated column grows by the default algorithm's measurements
   * of its parameter, in order; measurements of other algorithms or other
   * parameters go nowhere.
   */
  lemma {:induction false} TakeAllColumns(m: Measured, xs: seq<Measurement>, param: string)
    requires Tabulated(param)
    ensures Column(TakeAll(m, xs), param) == Column(m, param) + Picked(xs, param)
    decreases |xs|
  {
    if xs != [] {
      TakeAllColumns(m, xs[..|xs| - 1], param);
    }
  }

  /** The loop over an object's stellar parameters. */
  method AddMeasurements(m: Measured, xs: seq<Measurement>) returns (r: Measured)
    ensures r == TakeAll(m, xs)
  {
    r := m;
    var i := 0;
    while i < |xs|
      invariant 0 <= i <= |xs|
      invariant r == TakeAll(m, xs[..i])
    {
      var x := xs[i];
      if x.methodName == Default {
        if x.param == "v_los" {
          r := r.(vLos := r.vLos + [(x.value, x.err)]);
        } else if x.param == "T_eff" {
          r := r.(tEff := r.tEff + [(x.value, x.err)]);
        } else if x.param == "M_H" {
          r := r.(mH := r.mH + [(x.value, x.err)]);
        } else if x.param == "log_g" {
          r := r.(logG := r.logG + [(x.value, x.err)]);
        }
      }
      assert xs[..i + 1][..i] == xs[..i];
      i := i + 1;
    }
    assert xs[..i] == xs;
  }

  /** The row of an object found on a fiber. */
  function RowOf(obj: GaObject, f: Fiber): Row {
    var obs := obj.observations;
    Row(obj.catId, obj.objId, f, CountArm(obs, 'b'), CountArm(obs, 'm'), CountArm(obs, 'r'), CountArm(obs, 'n'), false, "")
  }

  // ---------------------------------------------------------------------
  // The catalog

  /**
   * One loaded object added: its catId must be the catalog's; its visits
   * are seen; its first visit's design must carry the object on exactly
   * one fiber; its row and measurements are appended.
   */
  function AddObject(c: Catalog, configs: map<int, seq<Fiber>>, objId: int, obj: GaObject): (r: Result<Catalog>)
    ensures r.Fail? <==>
      (c.catId.Some? && c.catId.value != obj.catId) || obj.observations == [] ||
      obj.observations[0].visit !in configs || |Matches(configs[obj.observations[0].visit], objId)| != 1
    ensures r.Fail? && c.catId.Some? && c.catId.value != obj.catId ==> r.error == ValueError
    ensures r.Fail? && !(c.catId.Some? && c.catId.value != obj.catId) ==>
      r.error == (if obj.observations == [] then IndexError else if obj.observations[0].visit !in configs then KeyError else ValueError)
    ensures r.Ok? ==>
      r.value.catId == Some(obj.catId) && r.value.visits == Seen(c.visits, obj.observations) &&
      r.value.rows == c.rows + [RowOf(obj, Matches(configs[obj.observations[0].visit], objId)[0])] &&
      r.value.measured == TakeAll(c.measured, obj.stellarParams)
  {
    if c.catId.Some? && c.catId.value != obj.catId then Fail(ValueError)
    else if obj.observations == [] then Fail(IndexError)
    else if obj.observations[0].visit !in configs then Fail(KeyError)
    else
      var fibers := Matches(configs[obj.observations[0].visit], objId);
      if |fibers| != 1 then Fail(ValueError)
      else Ok(Catalog(Some(obj.catId), Seen(c.visits, obj.observations), c.rows + [RowOf(obj, fibers[0])],
                      TakeAll(c.measured, obj.stellarParams)))
  }

  /** The catalog from the objects handled, in order; a missing object is skipped. */
  function Build(configs: map<int, seq<Fiber>>, items: seq<(int, Option<GaObject>)>): Result<Catalog> {
    if items == [] then Ok(Empty)
    else
      match Build(configs, items[..|items| - 1])
      case Fail(e) => Fail(e)
      case Ok(c) =>
        var item := items[|items| - 1];
        if item.1.None? then Ok(c) else AddObject(c, configs, item.0, item.1.value)
  }

  /** The objects loaded, in order. */
  function Loaded(items: seq<(int, Option<GaObject>)>): (r: seq<GaObject>)
    ensures |r| <= |items|
    ensures forall o :: o in r <==> exists i :: 0 <= i < |items| && items[i].1 == Some(o)
  {
    if items == [] then []
    else
      var r := Loaded(items[..|items| - 1]) + (if items[|items| - 1].1.Some? then [items[|items| - 1].1.value] else []);
      assert forall i :: 0 <= i < |items| - 1 ==> items[..|items| - 1][i] == items[i];
      r
  }

  /** The observations of the objects, one object after the other. */
  function AllObservations(objs: seq<GaObject>): seq<Observation> {
    if objs == [] then [] else AllObservations(objs[..|objs| - 1]) + objs[|objs| - 1].observations
  }

  /** The measurements of the objects, one object after the other. */
  function AllMeasurements(objs: seq<GaObject>): seq<Measurement> {
    if objs == [] then [] else AllMeasurements(objs[..|objs| - 1]) + objs[|objs| - 1].stellarParams
  }

  lemma {:induction false} TakeAllAppend(m: Measured, a: seq<Measurement>, b: seq<Measurement>)
    ensures TakeAll(m, a + b) == TakeAll(TakeAll(m, a), b)
    decreases |b|
  {
    if b == [] {
      assert a + b == a;
    } else {
      assert (a + b)[..|a + b| - 1] == a + b[..|b| - 1];
      TakeAllAppend(m, a, b[..|b| - 1]);
    }
  }

  /**
   * A catalog that was built holds one row per loaded object, all loaded
   * objects share its catId (none is set when no object loaded), its visits
   * are those seen from all their observations, and its measured columns
   * hold all their measurements taken in order.
   */
  lemma {:induction false} BuildHolds(configs: map<int, seq<Fiber>>, items: seq<(int, Option<GaObject>)>)
    requires Build(configs, items).Ok?
    ensures var c := Build(configs, items).value; var objs := Loaded(items);
      |c.rows| == |objs| &&
      (c.catId.None? <==> objs == []) &&
      (forall k :: 0 <= k < |objs| ==> c.catId == Some(objs[k].catId) && c.rows[k].catId == objs[k].catId && c.rows[k].objId == objs[k].objId) &&
      c.visits == Seen(NoVisits, AllObservations(objs)) &&
      c.measured == TakeAll(NoMeasurements, AllMeasurements(objs))
  {
    BuildRows(configs, items);
    BuildVisits(configs, items);
    BuildMeasured(configs, items);
  }

  /** The last item adds its object to the loaded ones exactly when it loaded. */
  lemma LoadedStep(items: seq<(int, Option<GaObject>)>)
    requires items != []
    ensures var item := items[|items| - 1]; var objs := Loaded(items[..|items| - 1]);
      Loaded(items) == if item.1.Some? then objs + [item.1.value] else objs
  {
  }

  /** The rows and the catId of a built catalog, one row per loaded object. */
  lemma {:induction false} BuildRows(configs: map<int, seq<Fiber>>, items: seq<(int, Option<GaObject>)>)
    requires Build(configs, items).Ok?
    ensures var c := Build(configs, items).value; var objs := Loaded(items);
      |c.rows| == |objs| &&
      (c.catId.None? <==> objs == []) &&
      (forall k :: 0 <= k < |objs| ==> c.catId == Some(objs[k].catId) && c.rows[k].catId == objs[k].catId && c.rows[k].objId == objs[k].objId)
    decreases |items|
  {
    if items != [] {
      var prefix := items[..|items| - 1];
      BuildRows(configs, prefix);
      LoadedStep(items);
    }
  }

  /** The visits of a built catalog are those seen from all loaded objects' observations. */
  lemma {:induction false} BuildVisits(configs: map<int, seq<Fiber>>, items: seq<(int, Option<GaObject>)>)
    requires Build(configs, items).Ok?
    ensures Build(configs, items).value.visits == Seen(NoVisits, AllObservations(Loaded(items)))
    decreases |items|
  {
    if items != [] {
      var prefix := items[..|items| - 1];
      BuildVisits(configs, prefix);
      LoadedStep(items);
      var item := items[|items| - 1];
      if item.1.Some? {
        var objs := Loaded(prefix);
        assert Loaded(items)[..|Loaded(items)| - 1] == objs;
        SeenAppend(NoVisits, AllObservations(objs), item.1.value.observations);
      }
    }
  }

  /** The measured columns of a built catalog hold all loaded objects' measurements, taken in order. */
  lemma {:induction false} BuildMeasured(configs: map<int, seq<Fiber>>, items: seq<(int, Option<GaObject>)>)
    requires Build(configs, items).Ok?
    ensures Build(configs, items).value.measured == TakeAll(NoMeasurements, AllMeasurements(Loaded(items)))
    decreases |items|
  {
    if items != [] {
      var prefix := items[..|items| - 1];
      BuildMeasured(configs, prefix);
      LoadedStep(items);
      var item := items[|items| - 1];
      if item.1.Some? {
        var objs := Loaded(prefix);
        assert Loaded(items)[..|Loaded(items)| - 1] == objs;
        TakeAllAppend(NoMeasurements, AllMeasurements(objs), item.1.value.stellarParams);
      }
    }
  }

  /**
   * The catalog's visits are those of all loaded objects' observations, each
   * once, in the order first observed, with the arm strings of each.
   */
  lemma CatalogVisits(configs: map<int, seq<Fiber>>, items: seq<(int, Option<GaObject>)>)
    requires Build(configs, items).Ok?
    ensures Describes(Build(configs, items).value.visits, AllObservations(Loaded(items)))
  {
    BuildHolds(configs, items);
    SeenDescribes(AllObservations(Loaded(items)));
  }

  /** Two loaded objects with different catIds make the catalog fail. */
  lemma CatIdsMustMatch(configs: map<int, seq<Fiber>>, items: seq<(int, Option<GaObject>)>, i: nat, j: nat)
    requires i < |items| && j < |items| && items[i].1.Some? && items[j].1.Some?
    requires items[i].1.value.catId != items[j].1.value.catId
    ensures Build(configs, items).Fail?
  {
    if Build(configs, items).Ok? {
      BuildHolds(configs, items);
    }
  }

  /** Once building failed, handling more objects fails the same way. */
  lemma {:induction false} FailSticks(configs: map<int, seq<Fiber>>, items: seq<(int, Option<GaObject>)>, k: nat, m: nat)
    requires k <= m <= |items| && Build(configs, items[..k]).Fail?
    ensures Build(configs, items[..m]) == Build(configs, items[..k])
    decreases m
  {
    if k < m {
      assert items[..m][..m - 1] == items[..m - 1];
      FailSticks(configs, items, k, m - 1);
    }
  }

  /** The body of the loop over the objects, for an object that loaded. */
  method AddOne(c: Catalog, configs: map<int, seq<Fiber>>, objId: int, obj: GaObject) returns (r: Result<Catalog>)
    ensures r == AddObject(c, configs, objId, obj)
  {
    var catId := c.catId;
    if catId.None? {
      catId := Some(obj.catId);
    } else if catId.value != obj.catId {
      return Fail(ValueError);
    }
    var visits := AddVisits(c.visits, obj.observations);
    if |obj.observations| == 0 {
      return Fail(IndexError);
    }
    if obj.observations[0].visit !in configs {
      return Fail(KeyError);
    }
    var fibers := Matches(configs[obj.observations[0].visit], objId);
    if |fibers| != 1 {
      return Fail(ValueError);
    }
    var measured := AddMeasurements(c.measured, obj.stellarParams);
    return Ok(Catalog(catId, visits, c.rows + [RowOf(obj, fibers[0])], measured));
  }

  /**
   * `__create_catalog`: the objects in order, each loaded one added, until
   * `top` objects, missing or not, were handled.
   */
  method CreateCatalog(configs: map<int, seq<Fiber>>, items: seq<(int, Option<GaObject>)>, top: Option<int>)
    returns (r: Result<Catalog>)
    ensures r == Build(configs, items[..Jobs.Taken(|items|, top)])
  {
    r := Ok(Empty);
    var q := 0;
    var done := false;
    while q < |items| && !done
      invariant 0 <= q <= Jobs.Taken(|items|, top)
      invariant !done && q < |items| ==> q < Jobs.Taken(|items|, top)
      invariant !done ==> r.Ok? && Build(configs, items[..q]) == r
      invariant done ==> r == Build(configs, items[..Jobs.Taken(|items|, top)])
    {
      var item := items[q];
      BuildNext(configs, items, q, r.value);
      if item.1.Some? {
        r := AddOne(r.value, configs, item.0, item.1.value);
      }
      q := q + 1;
      if r.Fail? {
        FailSticks(configs, items, q, Jobs.Taken(|items|, top));
        done := true;
      } else if top.Some? && q >= top.value {
        Jobs.TakenStops(|items|, top, q);
        done := true;
      } else if q < |items| {
        Jobs.TakenStops(|items|, top, q);
      }
    }
    if !done && |items| > 0 {
      Jobs.TakenStops(|items|, top, q);
    }
  }

  /** One more object of the catalog loop: a missing one changes nothing, a loaded one is added. */
  lemma BuildNext(configs: map<int, seq<Fiber>>, items: seq<(int, Option<GaObject>)>, q: nat, c: Catalog)
    requires q < |items| && Build(configs, items[..q]) == Ok(c)
    ensures Build(configs, items[..q + 1]) ==
      if items[q].1.None? then Ok(c) else AddObject(c, configs, items[q].0, items[q].1.value)
  {
    assert items[..q + 1][..q] == items[..q];
  }

  /**
   * The objects are counted whether their file is there or not: with `top`
   * one and the first object missing, the catalog is empty.
   */
  lemma MissingCountsTowardTop(configs: map<int, seq<Fiber>>, items: seq<(int, Option<GaObject>)>)
    requires |items| >= 1 && items[0].1.None?
    ensures Build(configs, items[..Jobs.Taken(|items|, Some(1))]) == Ok(Empty)
  {
    assert items[..1][..0] == [];
  }

  /** The script's arguments and the catalogs it has saved. */
  class Script {
    /** The stellar parameters file and its ID column. */
    var params: Option<string>
    var paramsId: string
    var top: Option<int>
    var saved: seq<Catalog>

    /** No parameters file, ID column `__target_idx`, no `top`, nothing saved. */
    constructor ()
      ensures params.None? && paramsId == "__target_idx" && top.None? && saved == []
    {
      params, paramsId, top, saved := None, "__target_idx", None, [];
    }

    /** `_init_from_args`: each given, non-empty argument replaces its setting. */
    method InitFromArgs(paramsArg: Option<string>, paramsIdArg: Option<string>, topArg: Option<int>)
      modifies this
      ensures params == (if paramsArg.Some? && paramsArg.value != "" then paramsArg else old(params))
      ensures paramsId == Jobs.ArgOr(paramsIdArg, old(paramsId))
      ensures top == (if topArg.Some? then topArg else old(top))
      ensures saved == old(saved)
    {
      if paramsArg.Some? && paramsArg.value != "" {
        params := paramsArg;
      }
      paramsId := Jobs.ArgOr(paramsIdArg, paramsId);
      if topArg.Some? {
        top := topArg;
      }
    }

    /**
     * `run`: with no object found nothing is saved; else the catalog of the
     * objects found is saved, unless building it raised.
     */
    method Run(configs: map<int, seq<Fiber>>, items: seq<(int, Option<GaObject>)>) returns (failure: Option<Error>)
      modifies this
      ensures params == old(params) && paramsId == old(paramsId) && top == old(top)
      ensures items == [] ==> failure.None? && saved == old(saved)
      ensures items != [] ==>
        var r := Build(configs, items[..Jobs.Taken(|items|, top)]);
        (r.Ok? ==> failure.None? && saved == old(saved) + [r.value]) &&
        (r.Fail? ==> failure == Some(r.error) && saved == old(saved))
    {
      if |items| == 0 {
        return None;
      }
      var r := CreateCatalog(configs, items, top);
      if r.Fail? {
        return Some(r.error);
      }
      saved := saved + [r.value];
      return None;
    }
  }
}
