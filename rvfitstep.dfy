/**
 * The RV-fit step (gapipe/steps/rvfitstep.py): which arms are fitted, how
 * the spectra read for those arms are screened and collected into one list
 * per arm ordered by visit, how template grids are shared between arms,
 * and when the coadd substep runs and on which spectra.
 *
 * The numerics of the fit are not modelled: the pixel mask of a spectrum
 * is a parameter (`Screening.count`), a grid file is its file name, and
 * `str.format(arm=...)` is the parameter `Format`. The attributes the step
 * sets on the pipeline object are the fields of `FitState`.
 */
module RvFitStep {
  import opened Wrappers
  import opened Identity
  import opened GaPipeline
  import opened SortedKeys
  import Runner

  // ---------------------------------------------------------------------
  // Available and fitted arms (validate_config)

  /**
   * What the arm survey needs: the product cache, the visits, how an entry
   * of `required_product_types` names a product type, and which product
   * types contribute arms.
   */
  datatype Survey<!T> = Survey(
    cache: Option<Cache>, items: seq<VisitItem>, resolve: T -> Result<Product>, counted: Product -> bool)

  /** The arms one entry of `required_product_types` contributes: none when its type is not counted. */
  function ArmsOf<T>(s: Survey<T>, t: T): Result<set<char>> {
    var p := s.resolve(t);
    if p.Fail? then Fail(p.error)
    else if !s.counted(p.value) then Ok({})
    else AvailArms(s.cache, p.value, s.items)
  }

  /** What each entry of `required_product_types` contributes, in order. */
  function Contributions<T>(s: Survey<T>, ts: seq<T>): (rs: seq<Result<set<char>>>)
    ensures |rs| == |ts| && forall i :: 0 <= i < |ts| ==> rs[i] == ArmsOf(s, ts[i])
  {
    seq(|ts|, i requires 0 <= i < |ts| => ArmsOf(s, ts[i]))
  }

  /** The union loop: the union of the contributions, or the first exception. */
  function UnionOf(rs: seq<Result<set<char>>>): Result<set<char>>
    decreases |rs|
  {
    if rs == [] then Ok({})
    else
      var n := |rs| - 1;
      var prev := UnionOf(rs[..n]);
      if prev.Fail? then prev
      else if rs[n].Fail? then Fail(rs[n].error)
      else Ok(prev.value + rs[n].value)
  }

  /** `avail_arms`. */
  function ObservedArms<T>(s: Survey<T>, ts: seq<T>): Result<set<char>> {
    UnionOf(Contributions(s, ts))
  }

  /** The union succeeds exactly when every contribution does. */
  lemma {:induction false} UnionSucceeds(rs: seq<Result<set<char>>>)
    ensures UnionOf(rs).Ok? <==> forall i :: 0 <= i < |rs| ==> rs[i].Ok?
    decreases |rs|
  {
    if rs != [] {
      var n := |rs| - 1;
      UnionSucceeds(rs[..n]);
      assert forall i :: 0 <= i < n ==> rs[..n][i] == rs[i];
    }
  }

  /** A successful union holds exactly the arms some entry contributes. */
  lemma {:induction false} UnionMembers(rs: seq<Result<set<char>>>, a: char)
    requires UnionOf(rs).Ok?
    ensures a in UnionOf(rs).value <==> exists i :: 0 <= i < |rs| && rs[i].Ok? && a in rs[i].value
    decreases |rs|
  {
    if rs != [] {
      var n := |rs| - 1;
      UnionMembers(rs[..n], a);
      assert forall i :: 0 <= i < n ==> rs[..n][i] == rs[i];
    }
  }

  /** A failing union raises what its first failing contribution raises. */
  lemma {:induction false} UnionFailure(rs: seq<Result<set<char>>>)
    requires UnionOf(rs).Fail?
    ensures exists i :: 0 <= i < |rs| && rs[i] == Fail(UnionOf(rs).error) && forall j :: 0 <= j < i ==> rs[j].Ok?
    decreases |rs|
  {
    var n := |rs| - 1;
    assert forall i :: 0 <= i < n ==> rs[..n][i] == rs[i];
    if UnionOf(rs[..n]).Fail? {
      UnionFailure(rs[..n]);
    } else {
      UnionSucceeds(rs[..n]);
    }
  }

  /** Once a prefix raises, the union raises the same. */
  lemma {:induction false} UnionSticks(rs: seq<Result<set<char>>>, k: nat)
    requires k <= |rs| && UnionOf(rs[..k]).Fail?
    ensures UnionOf(rs) == UnionOf(rs[..k])
    decreases |rs|
  {
    if k < |rs| {
      var n := |rs| - 1;
      assert rs[..n][..k] == rs[..k];
      UnionSticks(rs[..n], k);
    } else {
      assert rs[..k] == rs;
    }
  }

  /** The arms of the RV-fit survey: fiber arrays and fiber array sets, taken as they are. */
  function RvFitSurvey(c: Option<Cache>, items: seq<VisitItem>): Survey<Product> {
    Survey(c, items, (p: Product) => Ok(p), IsArray)
  }

  /** The position of the first configured arm that is not available, or the length of the list. */
  function FirstMissing(fitArms: seq<char>, avail: set<char>): (k: nat)
    ensures k <= |fitArms|
    ensures forall j :: 0 <= j < k ==> fitArms[j] in avail
    ensures k < |fitArms| ==> fitArms[k] !in avail
  {
    if fitArms == [] || fitArms[0] !in avail then 0 else 1 + FirstMissing(fitArms[1..], avail)
  }

  /**
   * The loop over `fit_arms`: the configured arms that are available, or
   * PipelineError when all arms are required and one is not available.
   */
  function Selection(fitArms: seq<char>, avail: set<char>, requireAll: bool): (r: Result<set<char>>)
    ensures r.Fail? <==> requireAll && exists a :: a in fitArms && a !in avail
    ensures r.Fail? ==> r.error == PipelineError
    ensures r.Ok? ==> forall a :: a in r.value <==> a in fitArms && a in avail
    ensures r.Ok? && requireAll ==> forall a :: a in r.value <==> a in fitArms
  {
    var k := FirstMissing(fitArms, avail);
    assert k < |fitArms| ==> fitArms[k] in fitArms;
    if requireAll && k < |fitArms| then Fail(PipelineError)
    else Ok(set a | a in fitArms && a in avail)
  }

  /**
   * The loop over `fit_arms`, adding to the fitted arms as it goes: when it
   * raises, the arms before the first missing one have been added.
   */
  method SelectArms(fitArms: seq<char>, avail: set<char>, requireAll: bool) returns (arms: set<char>, failure: Option<Error>)
    ensures failure.None? <==> Selection(fitArms, avail, requireAll).Ok?
    ensures failure.None? ==> arms == Selection(fitArms, avail, requireAll).value
    ensures failure.Some? ==>
      failure == Some(PipelineError) && arms == (set a | a in fitArms[..FirstMissing(fitArms, avail)])
  {
    arms := {};
    var i := 0;
    while i < |fitArms|
      invariant 0 <= i <= |fitArms|
      invariant !requireAll || i <= FirstMissing(fitArms, avail)
      invariant arms == set a | a in fitArms[..i] && a in avail
    {
      var a := fitArms[i];
      assert fitArms[..i + 1] == fitArms[..i] + [a];
      if requireAll && a !in avail {
        assert i == FirstMissing(fitArms, avail);
        return arms, Some(PipelineError);
      } else if a in avail {
        arms := arms + {a};
      }
      i := i + 1;
    }
    assert fitArms[..i] == fitArms;
    failure := None;
  }

  /** The union loop of `validate_config` over the required product types. */
  method SurveyArms<T>(s: Survey<T>, ts: seq<T>) returns (r: Result<set<char>>)
    ensures r == ObservedArms(s, ts)
  {
    ghost var rs := Contributions(s, ts);
    var avail := {};
    var i := 0;
    while i < |ts|
      invariant 0 <= i <= |ts|
      invariant UnionOf(rs[..i]) == Ok(avail)
    {
      assert rs[..i + 1][..i] == rs[..i];
      var here := ArmsOf(s, ts[i]);
      if here.Fail? {
        UnionSticks(rs, i + 1);
        return Fail(here.error);
      }
      avail := avail + here.value;
      i := i + 1;
    }
    assert rs[..i] == rs;
    return Ok(avail);
  }

  // ---------------------------------------------------------------------
  // Screening one spectrum

  /** What `get_full_mask` tells the collector: the number of pixels and how many of them are masked. */
  datatype PixelCount = PixelCount(size: nat, masked: nat)

  /**
   * The screening settings: the mask of a spectrum under the configured
   * mask flags, whether mostly masked spectra are skipped, and
   * `min_unmasked_pixels`.
   */
  datatype Screening = Screening(count: Spectrum -> PixelCount, skipMostlyMasked: bool, minUnmasked: int)

  /**
   * The screening as written: `(~mask).sum()` counts the masked pixels, so
   * the test meant for a fully masked spectrum drops a spectrum with no
   * masked pixel at all and keeps one whose every pixel is masked.
   */
  function ScreenAsWritten(s: Option<Spectrum>, sc: Screening): (r: Option<Spectrum>)
    ensures r.Some? ==> r == s
    ensures s.Some? && sc.count(s.value).masked == 0 ==> r.None?
    ensures s.Some? && 0 < sc.count(s.value).masked == sc.count(s.value).size && !sc.skipMostlyMasked ==> r == s
  {
    if s.None? then None
    else
      var n := sc.count(s.value);
      if n.masked == 0 then None
      else if sc.skipMostlyMasked && n.size - n.masked < sc.minUnmasked then None
      else s
  }

  /**
   * The screening as intended: a spectrum is kept when it has an unmasked
   * pixel and, when mostly masked spectra are skipped, at least
   * `min_unmasked_pixels` of them.
   */
  function Screen(s: Option<Spectrum>, sc: Screening): (r: Option<Spectrum>)
    ensures r.Some? ==> r == s
    ensures r.Some? <==> (s.Some? && sc.count(s.value).masked < sc.count(s.value).size &&
                          !(sc.skipMostlyMasked && sc.count(s.value).size - sc.count(s.value).masked < sc.minUnmasked))
    ensures s.Some? && sc.count(s.value).size <= sc.count(s.value).masked ==> r.None?
    ensures (s.Some? && sc.count(s.value).masked == 0 < sc.count(s.value).size &&
             !(sc.skipMostlyMasked && sc.count(s.value).size < sc.minUnmasked)) ==> r == s
  {
    if s.None? then None
    else
      var n := sc.count(s.value);
      if n.size <= n.masked then None
      else if sc.skipMostlyMasked && n.size - n.masked < sc.minUnmasked then None
      else s
  }

  /** A spectrum without masked pixels is thrown away as written and kept as intended. */
  lemma CleanSpectrumDropped(s: Spectrum, sc: Screening)
    requires sc.count(s).masked == 0 < sc.count(s).size && !sc.skipMostlyMasked
    ensures ScreenAsWritten(Some(s), sc) == None
    ensures Screen(Some(s), sc) == Some(s)
  {
  }

  // ---------------------------------------------------------------------
  // Collecting the spectra (__rvfit_collect_spectra)

  /** The spectra of one arm, by visit. */
  type Column = map<int, Option<Spectrum>>

  /** The collected spectra: one list per arm, in ascending visit order. */
  type Lists = map<char, seq<Option<Spectrum>>>

  /** Every used arm was read, for every visit. */
  predicate Present(input: Spectra, use: set<char>, visits: seq<int>) {
    forall a :: a in use ==> a in input && forall v :: v in visits ==> v in input[a]
  }

  /** One arm after the first loop: the screened spectrum of each visit. */
  function ScreenedColumn(col: Column, visits: seq<int>, sc: Screening): (r: Column)
    requires forall v :: v in visits ==> v in col
    ensures r.Keys == set v | v in visits
  {
    map v | v in visits :: Screen(col[v], sc)
  }

  /** All used arms after the first loop. */
  function Screened(input: Spectra, use: set<char>, visits: seq<int>, sc: Screening): (g: Spectra)
    requires Present(input, use, visits)
    ensures g.Keys == use
    ensures forall a :: a in g ==> g[a].Keys == set v | v in visits
  {
    map a | a in use :: ScreenedColumn(input[a], visits, sc)
  }

  /** No arm holds a spectrum for `v`. */
  predicate Blank(g: Spectra, v: int) {
    forall a :: a in g && v in g[a] ==> g[a][v].None?
  }

  /** A blank visit that is listed twice: the second deletion raises KeyError. */
  predicate RepeatedBlank(g: Spectra, visits: seq<int>) {
    exists i, j :: 0 <= i < j < |visits| && visits[i] == visits[j] && Blank(g, visits[j])
  }

  function BlankVisits(g: Spectra, visits: seq<int>): set<int> {
    set v | v in visits && Blank(g, v)
  }

  /** Every arm without the visits in `gone`. */
  function Without(g: Spectra, gone: set<int>): (r: Spectra)
    ensures r.Keys == g.Keys
  {
    map a | a in g :: g[a] - gone
  }

  /** The arm holds a spectrum for some visit. */
  predicate Filled(col: Column) {
    exists v :: v in col && col[v].Some?
  }

  /** The third loop: the arms that hold a spectrum. */
  function KeepFilled(g: Spectra): (r: Spectra)
    ensures forall a :: a in r <==> a in g && Filled(g[a])
  {
    map a | a in g && Filled(g[a]) :: g[a]
  }

  /** One arm as a list, in ascending visit order. */
  function Listed(col: Column): (l: seq<Option<Spectrum>>)
    ensures |l| == |col.Keys|
  {
    var vs := Ascend(col.Keys);
    seq(|vs|, k requires 0 <= k < |vs| => col[vs[k]])
  }

  function AllListed(g: Spectra): (l: Lists)
    ensures l.Keys == g.Keys
    ensures forall a :: a in l ==> l[a] == Listed(g[a])
  {
    map a | a in g :: Listed(g[a])
  }

  /** The whole collection: KeyError for a missing spectrum or a repeated blank visit. */
  function Collected(input: Spectra, use: set<char>, visits: seq<int>, sc: Screening): Result<Lists> {
    if !Present(input, use, visits) then Fail(KeyError)
    else
      var g := Screened(input, use, visits, sc);
      if use != {} && RepeatedBlank(g, visits) then Fail(KeyError)
      else Ok(AllListed(KeepFilled(Without(g, BlankVisits(g, visits)))))
  }

  /** The first loop, for one arm. */
  method ScreenArm(input: Spectra, a: char, visits: seq<int>, sc: Screening) returns (col: Column, failure: Option<Error>)
    ensures failure.None? <==> a in input && forall v :: v in visits ==> v in input[a]
    ensures failure.Some? ==> failure == Some(KeyError)
    ensures failure.None? ==> col == ScreenedColumn(input[a], visits, sc)
  {
    col := map[];
    if a !in input {
      return col, Some(KeyError);
    }
    var i := 0;
    while i < |visits|
      invariant 0 <= i <= |visits|
      invariant forall v :: v in visits[..i] ==> v in input[a]
      invariant col == ScreenedColumn(input[a], visits[..i], sc)
    {
      var v := visits[i];
      assert visits[..i + 1] == visits[..i] + [v];
      if v !in input[a] {
        return col, Some(KeyError);
      }
      col := col[v := Screen(input[a][v], sc)];
      i := i + 1;
    }
    assert visits[..i] == visits;
    failure := None;
  }

  /** The first loop: `spectra[arm][visit]` for every used arm and visit, screened. */
  method ScreenAll(input: Spectra, use: set<char>, visits: seq<int>, sc: Screening) returns (g: Spectra, failure: Option<Error>)
    ensures failure.None? <==> Present(input, use, visits)
    ensures failure.Some? ==> failure == Some(KeyError)
    ensures failure.None? ==> g == Screened(input, use, visits, sc)
  {
    g := map a | a in use :: map[];
    var todo := use;
    while todo != {}
      invariant todo <= use
      invariant g.Keys == use
      invariant forall a :: a in use - todo ==>
        a in input && (forall v :: v in visits ==> v in input[a]) && g[a] == ScreenedColumn(input[a], visits, sc)
      decreases |todo|
    {
      var a :| a in todo;
      var col, f := ScreenArm(input, a, visits, sc);
      if f.Some? {
        return g, f;
      }
      g := g[a := col];
      todo := todo - {a};
    }
    failure := None;
  }

  /** One step of the second loop: how the blank and repeated-blank visits grow. */
  lemma BlankStep(g: Spectra, visits: seq<int>, i: nat)
    requires i < |visits|
    ensures BlankVisits(g, visits[..i + 1]) ==
      BlankVisits(g, visits[..i]) + (if Blank(g, visits[i]) then {visits[i]} else {})
    ensures RepeatedBlank(g, visits[..i + 1]) <==>
      RepeatedBlank(g, visits[..i]) || (visits[i] in visits[..i] && Blank(g, visits[i]))
  {
    var p, q := visits[..i], visits[..i + 1];
    assert q == p + [visits[i]];
    if visits[i] in p && Blank(g, visits[i]) {
      var j :| 0 <= j < i && p[j] == visits[i];
      assert q[j] == q[i];
    }
    if RepeatedBlank(g, q) {
      var j, k :| 0 <= j < k < |q| && q[j] == q[k] && Blank(g, q[k]);
      if k < i {
        assert p[j] == p[k];
      } else {
        assert p[j] == q[j];
      }
    }
    if RepeatedBlank(g, p) {
      var j, k :| 0 <= j < k < |p| && p[j] == p[k] && Blank(g, p[k]);
      assert q[j] == q[k];
    }
  }

  /**
   * Whether any arm holds a spectrum for `v`, stopping at the first that
   * does; KeyError when the visit was deleted already.
   */
  method HoldsSpectrum(g: Spectra, v: int) returns (r: Result<bool>)
    requires forall a, b :: a in g && b in g ==> g[a].Keys == g[b].Keys
    ensures r.Fail? <==> exists a :: a in g && v !in g[a]
    ensures r.Fail? ==> r.error == KeyError
    ensures r.Ok? ==> (r.value <==> !Blank(g, v))
  {
    var todo := g.Keys;
    while todo != {}
      invariant todo <= g.Keys
      invariant forall a :: a in g.Keys - todo ==> v in g[a] && g[a][v].None?
      decreases |todo|
    {
      var a :| a in todo;
      if v !in g[a] {
        return Fail(KeyError);
      }
      if g[a][v].Some? {
        return Ok(true);
      }
      todo := todo - {a};
    }
    return Ok(false);
  }

  /** `del spectra[arm][visit]` for every arm. */
  method DeleteVisit(g: Spectra, v: int) returns (r: Spectra)
    requires forall a :: a in g ==> v in g[a]
    ensures r == Without(g, {v})
  {
    r := g;
    var todo := g.Keys;
    while todo != {}
      invariant todo <= g.Keys
      invariant r.Keys == g.Keys
      invariant forall a :: a in g ==> r[a] == if a in todo then g[a] else g[a] - {v}
      decreases |todo|
    {
      var a :| a in todo;
      r := r[a := r[a] - {v}];
      todo := todo - {a};
    }
  }

  /**
   * The second loop: each visit in turn is deleted from every arm when no
   * arm holds a spectrum for it; a blank visit listed twice raises
   * KeyError at its second turn.
   */
  method DropBlankVisits(g0: Spectra, visits: seq<int>) returns (g: Spectra, failure: Option<Error>)
    requires forall a :: a in g0 ==> g0[a].Keys == set v | v in visits
    ensures failure.Some? <==> g0 != map[] && RepeatedBlank(g0, visits)
    ensures failure.Some? ==> failure == Some(KeyError)
    ensures failure.None? ==> g == Without(g0, BlankVisits(g0, visits))
  {
    g := g0;
    var i := 0;
    assert BlankVisits(g0, visits[..0]) == {};
    assert forall a :: a in g0 ==> g0[a] - {} == g0[a];
    failure := None;
    while i < |visits|
      invariant 0 <= i <= |visits|
      invariant DroppedTo(g0, visits, i, g) && failure.None?
    {
      g, failure := DropTurn(g0, visits, i, g);
      if failure.Some? {
        return;
      }
      i := i + 1;
    }
    assert visits[..i] == visits;
  }

  /** The state of the second loop after the first `i` visits. */
  ghost predicate DroppedTo(g0: Spectra, visits: seq<int>, i: nat, g: Spectra)
    requires i <= |visits|
  {
    (g0 == map[] || !RepeatedBlank(g0, visits[..i])) && g == Without(g0, BlankVisits(g0, visits[..i]))
  }

  /** One turn of the second loop. */
  method DropTurn(g0: Spectra, visits: seq<int>, i: nat, g: Spectra) returns (g': Spectra, failure: Option<Error>)
    requires forall a :: a in g0 ==> g0[a].Keys == set v | v in visits
    requires i < |visits| && DroppedTo(g0, visits, i, g)
    ensures failure.None? ==> DroppedTo(g0, visits, i + 1, g')
    ensures failure.Some? ==> failure == Some(KeyError) && g0 != map[] && RepeatedBlank(g0, visits)
  {
    var v := visits[i];
    WithoutKeys(g0, visits, BlankVisits(g0, visits[..i]));
    var has := HoldsSpectrum(g, v);
    if has.Fail? {
      TurnRaises(g0, visits, i);
      return g, Some(KeyError);
    }
    failure := None;
    g' := g;
    if !has.value {
      g' := DeleteVisit(g, v);
      TurnDeletes(g0, visits, i);
    } else {
      TurnKeeps(g0, visits, i);
    }
  }

  /** A visit already deleted raises: it is blank and listed before. */
  lemma TurnRaises(g0: Spectra, visits: seq<int>, i: nat)
    requires forall a :: a in g0 ==> g0[a].Keys == set v | v in visits
    requires i < |visits|
    requires var g := Without(g0, BlankVisits(g0, visits[..i])); exists a :: a in g && visits[i] !in g[a]
    ensures g0 != map[] && RepeatedBlank(g0, visits)
  {
    var v := visits[i];
    var gone := BlankVisits(g0, visits[..i]);
    WithoutKeys(g0, visits, gone);
    assert v in gone;
    var j :| 0 <= j < i && visits[..i][j] == v;
    assert visits[j] == visits[i];
  }

  /** A blank visit is deleted and joins the deleted visits. */
  lemma TurnDeletes(g0: Spectra, visits: seq<int>, i: nat)
    requires forall a :: a in g0 ==> g0[a].Keys == set v | v in visits
    requires i < |visits| && (g0 == map[] || !RepeatedBlank(g0, visits[..i]))
    requires var g := Without(g0, BlankVisits(g0, visits[..i]));
      (forall a :: a in g ==> visits[i] in g[a]) && Blank(g, visits[i])
    ensures var g := Without(g0, BlankVisits(g0, visits[..i]));
      DroppedTo(g0, visits, i + 1, Without(g, {visits[i]}))
  {
    var v := visits[i];
    var gone := BlankVisits(g0, visits[..i]);
    BlankStep(g0, visits, i);
    WithoutKeys(g0, visits, gone);
    WithoutMore(g0, gone, v);
    if g0 != map[] {
      assert v !in gone;
      WithoutBlank(g0, gone, v);
      assert BlankVisits(g0, visits[..i + 1]) == gone + {v};
    }
  }

  /** A visit with a spectrum stays. */
  lemma TurnKeeps(g0: Spectra, visits: seq<int>, i: nat)
    requires forall a :: a in g0 ==> g0[a].Keys == set v | v in visits
    requires i < |visits| && (g0 == map[] || !RepeatedBlank(g0, visits[..i]))
    requires var g := Without(g0, BlankVisits(g0, visits[..i])); !Blank(g, visits[i])
    ensures DroppedTo(g0, visits, i + 1, Without(g0, BlankVisits(g0, visits[..i])))
  {
    var v := visits[i];
    var gone := BlankVisits(g0, visits[..i]);
    BlankStep(g0, visits, i);
    WithoutKeys(g0, visits, gone);
    assert v !in gone;
    WithoutBlank(g0, gone, v);
    assert BlankVisits(g0, visits[..i + 1]) == gone;
  }

  /** After deleting the visits in `gone`, every arm holds the remaining visits. */
  lemma WithoutKeys(g0: Spectra, visits: seq<int>, gone: set<int>)
    requires forall a :: a in g0 ==> g0[a].Keys == set v | v in visits
    ensures forall a :: a in Without(g0, gone) ==> Without(g0, gone)[a].Keys == (set v | v in visits) - gone
  {
  }

  /** A visit not deleted yet is blank in the second loop exactly when it was blank before. */
  lemma WithoutBlank(g0: Spectra, gone: set<int>, v: int)
    requires v !in gone
    ensures Blank(Without(g0, gone), v) <==> Blank(g0, v)
  {
    var g := Without(g0, gone);
    assert forall a :: a in g ==> (v in g[a] <==> v in g0[a]);
    assert forall a :: a in g && v in g[a] ==> g[a][v] == g0[a][v];
  }

  /** Deleting one more blank visit. */
  lemma WithoutMore(g0: Spectra, gone: set<int>, v: int)
    ensures Without(Without(g0, gone), {v}) == Without(g0, gone + {v})
  {
    forall a | a in g0
      ensures (g0[a] - gone) - {v} == g0[a] - (gone + {v})
    {
      ColumnMinus(g0[a], gone, v);
    }
  }

  lemma ColumnMinus(c: Column, gone: set<int>, v: int)
    ensures (c - gone) - {v} == c - (gone + {v})
  {
  }

  /** Whether the arm holds any spectrum, stopping at the first. */
  method HasAnySpectrum(col: Column) returns (b: bool)
    ensures b <==> Filled(col)
  {
    var todo := col.Keys;
    while exists v :: v in todo
      invariant todo <= col.Keys
      invariant forall v :: v in col.Keys - todo ==> col[v].None?
      decreases |todo|
    {
      var v :| v in todo;
      if col[v].Some? {
        return true;
      }
      todo := todo - {v};
    }
    return false;
  }

  /** The third loop: arms left without a spectrum are deleted. */
  method DropEmptyArms(g: Spectra) returns (r: Spectra)
    ensures r == KeepFilled(g)
  {
    r := g;
    var todo := g.Keys;
    while todo != {}
      invariant todo <= g.Keys
      invariant r == map a | a in g && (a in todo || Filled(g[a])) :: g[a]
      decreases |todo|
    {
      var a :| a in todo;
      var filled := HasAnySpectrum(g[a]);
      if !filled {
        r := r - {a};
      }
      todo := todo - {a};
    }
  }

  /** The fourth loop: each remaining arm becomes the list of its spectra by ascending visit. */
  method ListAll(g: Spectra) returns (l: Lists)
    ensures l == AllListed(g)
  {
    l := map[];
    var todo := g.Keys;
    while todo != {}
      invariant todo <= g.Keys
      invariant l.Keys == g.Keys - todo
      invariant forall a :: a in l ==> l[a] == Listed(g[a])
      decreases |todo|
    {
      var a :| a in todo;
      ListStep(l, g, todo, a);
      l := l[a := Listed(g[a])];
      todo := todo - {a};
    }
    SameListing(l, g);
  }

  /** Listing one more arm keeps the loop's invariant. */
  lemma ListStep(l: Lists, g: Spectra, todo: set<char>, a: char)
    requires todo <= g.Keys && a in todo
    requires l.Keys == g.Keys - todo && forall b :: b in l ==> l[b] == Listed(g[b])
    ensures l[a := Listed(g[a])].Keys == g.Keys - (todo - {a})
    ensures forall b :: b in l[a := Listed(g[a])] ==> l[a := Listed(g[a])][b] == Listed(g[b])
  {
  }

  lemma SameListing(l: Lists, g: Spectra)
    requires l.Keys == g.Keys && forall a :: a in l ==> l[a] == Listed(g[a])
    ensures l == AllListed(g)
  {
  }

  /** `__rvfit_collect_spectra`: the four loops in turn. */
  method Collect(input: Spectra, use: set<char>, visits: seq<int>, sc: Screening) returns (r: Result<Lists>)
    ensures r == Collected(input, use, visits, sc)
  {
    var g, failure := ScreenAll(input, use, visits, sc);
    if failure.Some? {
      return Fail(failure.value);
    }
    var live;
    live, failure := DropBlankVisits(g, visits);
    if failure.Some? {
      return Fail(failure.value);
    }
    var filled := DropEmptyArms(live);
    var l := ListAll(filled);
    return Ok(l);
  }

  // ---------------------------------------------------------------------
  // What the collection gives

  /** The screened spectrum of arm `a` at visit `v`, None when it was not read. */
  function Kept(input: Spectra, a: char, v: int, sc: Screening): Option<Spectrum> {
    if a in input && v in input[a] then Screen(input[a][v], sc) else None
  }

  /** The visits at which some used arm keeps a spectrum. */
  function LiveVisits(input: Spectra, use: set<char>, visits: seq<int>, sc: Screening): set<int> {
    set v | v in visits && exists a :: a in use && Kept(input, a, v, sc).Some?
  }

  /** The arms the collection keeps: the used arms that keep a spectrum at some visit. */
  predicate KeepsArms(l: Lists, input: Spectra, use: set<char>, visits: seq<int>, sc: Screening) {
    forall a :: a in l <==> a in use && exists v :: v in visits && Kept(input, a, v, sc).Some?
  }

  /**
   * Every kept arm lists the spectra it keeps at the live visits, in
   * ascending visit order, and None where it keeps none.
   */
  predicate ListsLive(l: Lists, input: Spectra, use: set<char>, visits: seq<int>, sc: Screening) {
    var vs := Ascend(LiveVisits(input, use, visits, sc));
    forall a :: a in l ==>
      a in use && |l[a]| == |vs| &&
      forall k :: 0 <= k < |vs| ==> l[a][k] == Kept(input, a, vs[k], sc)
  }

  /** A visit is blank after the first loop exactly when no used arm keeps a spectrum for it. */
  lemma BlankScreened(input: Spectra, use: set<char>, visits: seq<int>, sc: Screening, v: int)
    requires Present(input, use, visits) && v in visits
    ensures Blank(Screened(input, use, visits, sc), v) <==> forall b :: b in use ==> Kept(input, b, v, sc).None?
  {
    var g := Screened(input, use, visits, sc);
    if !Blank(g, v) {
      var b :| b in g && v in g[b] && g[b][v].Some?;
      assert g[b] == ScreenedColumn(input[b], visits, sc);
    } else {
      forall b | b in use
        ensures Kept(input, b, v, sc).None?
      {
        assert g[b] == ScreenedColumn(input[b], visits, sc);
        assert g[b][v].None?;
      }
    }
  }

  /** After the second loop every arm holds exactly the live visits, with their screened spectra. */
  lemma LiveColumn(input: Spectra, use: set<char>, visits: seq<int>, sc: Screening, a: char)
    requires Present(input, use, visits) && a in use
    ensures var g := Screened(input, use, visits, sc);
      Without(g, BlankVisits(g, visits))[a].Keys == LiveVisits(input, use, visits, sc)
    ensures var g := Screened(input, use, visits, sc);
      forall v :: v in LiveVisits(input, use, visits, sc) ==> Without(g, BlankVisits(g, visits))[a][v] == Kept(input, a, v, sc)
  {
    var g := Screened(input, use, visits, sc);
    var live := LiveVisits(input, use, visits, sc);
    forall v | v in visits
      ensures v in live <==> !Blank(g, v)
    {
      BlankScreened(input, use, visits, sc, v);
    }
    assert g[a] == ScreenedColumn(input[a], visits, sc);
  }

  /** The arms that survive the third loop. */
  lemma CollectArms(input: Spectra, use: set<char>, visits: seq<int>, sc: Screening)
    requires Collected(input, use, visits, sc).Ok?
    ensures Present(input, use, visits)
    ensures KeepsArms(Collected(input, use, visits, sc).value, input, use, visits, sc)
  {
    var g := Screened(input, use, visits, sc);
    var g2 := Without(g, BlankVisits(g, visits));
    var live := LiveVisits(input, use, visits, sc);
    var l := Collected(input, use, visits, sc).value;
    assert l.Keys == KeepFilled(g2).Keys;
    forall a | a in use
      ensures Filled(g2[a]) <==> exists v :: v in visits && Kept(input, a, v, sc).Some?
    {
      LiveColumn(input, use, visits, sc, a);
      if v :| v in visits && Kept(input, a, v, sc).Some? {
        assert v in live;
        assert g2[a][v].Some?;
      }
    }
  }

  /** The list one used arm becomes. */
  lemma ArmListed(input: Spectra, use: set<char>, visits: seq<int>, sc: Screening, a: char, k: nat)
    requires Present(input, use, visits) && a in use
    requires k < |Ascend(LiveVisits(input, use, visits, sc))|
    ensures var g := Screened(input, use, visits, sc);
      var vs := Ascend(LiveVisits(input, use, visits, sc));
      |Listed(Without(g, BlankVisits(g, visits))[a])| == |vs| &&
      Listed(Without(g, BlankVisits(g, visits))[a])[k] == Kept(input, a, vs[k], sc)
  {
    var g := Screened(input, use, visits, sc);
    var live := LiveVisits(input, use, visits, sc);
    LiveColumn(input, use, visits, sc, a);
    ListedAt(Without(g, BlankVisits(g, visits))[a], live, k);
  }

  /** The lists the fourth loop makes. */
  lemma CollectLists(input: Spectra, use: set<char>, visits: seq<int>, sc: Screening)
    requires Collected(input, use, visits, sc).Ok?
    ensures Present(input, use, visits)
    ensures ListsLive(Collected(input, use, visits, sc).value, input, use, visits, sc)
  {
    var g := Screened(input, use, visits, sc);
    var g2 := Without(g, BlankVisits(g, visits));
    var vs := Ascend(LiveVisits(input, use, visits, sc));
    var l := Collected(input, use, visits, sc).value;
    assert l == AllListed(KeepFilled(g2));
    forall a | a in l
      ensures a in use && l[a] == Listed(g2[a])
    {
    }
    forall a | a in l
      ensures |l[a]| == |vs| && forall k :: 0 <= k < |vs| ==> l[a][k] == Kept(input, a, vs[k], sc)
    {
      ArmList(input, use, visits, sc, a);
    }
  }

  /** The whole list one used arm becomes. */
  lemma ArmList(input: Spectra, use: set<char>, visits: seq<int>, sc: Screening, a: char)
    requires Present(input, use, visits) && a in use
    ensures var g := Screened(input, use, visits, sc);
      var vs := Ascend(LiveVisits(input, use, visits, sc));
      var l := Listed(Without(g, BlankVisits(g, visits))[a]);
      |l| == |vs| && forall k :: 0 <= k < |vs| ==> l[k] == Kept(input, a, vs[k], sc)
  {
    var g := Screened(input, use, visits, sc);
    var g2 := Without(g, BlankVisits(g, visits));
    var vs := Ascend(LiveVisits(input, use, visits, sc));
    if |vs| == 0 {
      LiveColumn(input, use, visits, sc, a);
      assert |Listed(g2[a])| == |g2[a].Keys|;
    } else {
      forall k | 0 <= k < |vs|
        ensures |Listed(g2[a])| == |vs| && Listed(g2[a])[k] == Kept(input, a, vs[k], sc)
      {
        ArmListed(input, use, visits, sc, a, k);
      }
      ArmListed(input, use, visits, sc, a, 0);
    }
  }

  /** Position `k` of a listed arm is its spectrum at the `k`-th smallest visit. */
  lemma ListedAt(col: Column, visits: set<int>, k: nat)
    requires col.Keys == visits && k < |Ascend(visits)|
    ensures Ascend(visits)[k] in visits && |Listed(col)| == |Ascend(visits)|
    ensures Listed(col)[k] == col[Ascend(visits)[k]]
  {
  }

  /**
   * The collection, when it does not raise: the used arms that keep a
   * spectrum at some visit, each as the list of what it keeps at every
   * live visit in ascending order.
   */
  lemma CollectMeaning(input: Spectra, use: set<char>, visits: seq<int>, sc: Screening)
    requires Collected(input, use, visits, sc).Ok?
    ensures Present(input, use, visits)
    ensures KeepsArms(Collected(input, use, visits, sc).value, input, use, visits, sc)
    ensures ListsLive(Collected(input, use, visits, sc).value, input, use, visits, sc)
  {
    CollectArms(input, use, visits, sc);
    CollectLists(input, use, visits, sc);
  }

  /** All kept arms list the same number of spectra. */
  lemma CollectedEqualLengths(input: Spectra, use: set<char>, visits: seq<int>, sc: Screening, a: char, b: char)
    requires Collected(input, use, visits, sc).Ok?
    requires a in Collected(input, use, visits, sc).value && b in Collected(input, use, visits, sc).value
    ensures |Collected(input, use, visits, sc).value[a]| == |Collected(input, use, visits, sc).value[b]|
  {
    CollectLists(input, use, visits, sc);
  }

  /**
   * The collection raises KeyError exactly when a used arm or visit was
   * not read, or when a visit at which no used arm keeps a spectrum is
   * listed twice.
   */
  lemma CollectFails(input: Spectra, use: set<char>, visits: seq<int>, sc: Screening)
    ensures Collected(input, use, visits, sc).Fail? ==> Collected(input, use, visits, sc).error == KeyError
    ensures Collected(input, use, visits, sc).Fail? <==>
      !Present(input, use, visits) ||
      (use != {} && exists i, j :: 0 <= i < j < |visits| && visits[i] == visits[j] &&
                               forall a :: a in use ==> Kept(input, a, visits[j], sc).None?)
  {
    if Present(input, use, visits) {
      var g := Screened(input, use, visits, sc);
      if RepeatedBlank(g, visits) {
        var i, j :| 0 <= i < j < |visits| && visits[i] == visits[j] && Blank(g, visits[j]);
        BlankScreened(input, use, visits, sc, visits[j]);
      }
      if exists i, j :: 0 <= i < j < |visits| && visits[i] == visits[j] &&
                        forall a :: a in use ==> Kept(input, a, visits[j], sc).None? {
        var i, j :| 0 <= i < j < |visits| && visits[i] == visits[j] &&
                    forall a :: a in use ==> Kept(input, a, visits[j], sc).None?;
        BlankScreened(input, use, visits, sc, visits[j]);
      }
    }
  }

  // ---------------------------------------------------------------------
  // Template grids (__rvfit_load_grid)

  /** `model_grid_path`: a path template per arm, or one template for all arms. */
  datatype GridPath = PerArm(paths: map<char, string>) | Shared(path: string)

  /** `template.format(arm=a)`. */
  type Format = (string, char) -> string

  /** The grid file of arm `a`; a per-arm table without the arm raises KeyError. */
  function GridFile(gp: GridPath, fmt: Format, a: char): Result<string> {
    match gp
    case PerArm(paths) => if a in paths then Ok(fmt(paths[a], a)) else Fail(KeyError)
    case Shared(path) => Ok(fmt(path, a))
  }

  /** Some arm has no grid file. */
  predicate GridMissing(arms: set<char>, gp: GridPath, fmt: Format) {
    exists a :: a in arms && GridFile(gp, fmt, a).Fail?
  }

  /**
   * The grids of `arms` as loaded: `files` lists the files read, in load
   * order and each once, every one of them the file of some arm, and
   * `grids[a]` is the position in `files` of the grid arm `a` fits with.
   */
  predicate GridsShared(arms: set<char>, gp: GridPath, fmt: Format, grids: map<char, nat>, files: seq<string>) {
    grids.Keys == arms &&
    (forall a :: a in grids ==>
       GridFile(gp, fmt, a).Ok? && grids[a] < |files| && files[grids[a]] == GridFile(gp, fmt, a).value) &&
    (forall i, j :: 0 <= i < j < |files| ==> files[i] != files[j]) &&
    (forall f :: f in files ==> exists a :: a in grids && files[grids[a]] == f)
  }

  /** The search for an already loaded grid with the same file name. */
  method FindLoaded(files: seq<string>, fn: string) returns (k: Option<nat>)
    ensures k.Some? ==> k.value < |files| && files[k.value] == fn
    ensures k.None? ==> fn !in files
  {
    var i := 0;
    while i < |files|
      invariant 0 <= i <= |files|
      invariant fn !in files[..i]
    {
      if files[i] == fn {
        return Some(i);
      }
      assert files[..i + 1] == files[..i] + [files[i]];
      i := i + 1;
    }
    assert files[..i] == files;
    return None;
  }

  /**
   * The grid loader: an arm whose file was already loaded shares that
   * grid, any other arm loads its file; KeyError when an arm has no file.
   */
  method LoadGrids(arms: set<char>, gp: GridPath, fmt: Format) returns (grids: map<char, nat>, files: seq<string>, failure: Option<Error>)
    ensures failure.Some? <==> GridMissing(arms, gp, fmt)
    ensures failure.Some? ==> failure == Some(KeyError)
    ensures failure.None? ==> GridsShared(arms, gp, fmt, grids, files)
  {
    grids, files, failure := map[], [], None;
    var todo := arms;
    while todo != {}
      invariant todo <= arms
      invariant GridsShared(arms - todo, gp, fmt, grids, files)
      decreases todo
    {
      var a :| a in todo;
      var fn := GridFile(gp, fmt, a);
      if fn.Fail? {
        return map[], [], Some(KeyError);
      }
      var k := FindLoaded(files, fn.value);
      if k.Some? {
        grids := grids[a := k.value];
      } else {
        files := files + [fn.value];
        grids := grids[a := |files| - 1];
      }
      todo := todo - {a};
    }
  }

  /** Two arms share a grid exactly when their grid files have the same name. */
  lemma SharedGridSameFile(arms: set<char>, gp: GridPath, fmt: Format, grids: map<char, nat>, files: seq<string>, a: char, b: char)
    requires GridsShared(arms, gp, fmt, grids, files) && a in arms && b in arms
    ensures grids[a] == grids[b] <==> GridFile(gp, fmt, a) == GridFile(gp, fmt, b)
  {
  }

  /** The files loaded are exactly the grid files of the arms. */
  lemma LoadedFiles(arms: set<char>, gp: GridPath, fmt: Format, grids: map<char, nat>, files: seq<string>, f: string)
    requires GridsShared(arms, gp, fmt, grids, files)
    ensures f in files <==> exists a :: a in arms && GridFile(gp, fmt, a) == Ok(f)
  {
    if f in files {
      var a :| a in grids && files[grids[a]] == f;
      assert GridFile(gp, fmt, a) == Ok(f);
    }
    if exists a :: a in arms && GridFile(gp, fmt, a) == Ok(f) {
      var a :| a in arms && GridFile(gp, fmt, a) == Ok(f);
      assert files[grids[a]] == f;
    }
  }

  // ---------------------------------------------------------------------
  // The signal-to-noise pass of load

  /**
   * The signal-to-noise loop of `load` as written: it asks every cell that
   * `read_spectra` returned for its mask bits, a spectrum that was not
   * read included, and that raises AttributeError.
   */
  function SnrAsWritten(input: Spectra): (r: Option<Error>)
    ensures r.Some? ==> r == Some(AttributeError)
  {
    if exists a, v :: a in input && v in input[a] && input[a][v].None? then Some(AttributeError) else None
  }

  /**
   * A used arm without a spectrum at some visit makes `load` raise before
   * the collection, which was written to drop or keep such a cell as None.
   */
  lemma MissingSpectrumRaises(input: Spectra, use: set<char>, visits: seq<int>, a: char, v: int)
    requires Present(input, use, visits) && a in use && v in visits && input[a][v].None?
    ensures SnrAsWritten(input) == Some(AttributeError)
  {
    assert a in input && v in input[a];
  }

  // ---------------------------------------------------------------------
  // The coadd substep

  /** `[s for s in l if s is not None]`. */
  function Somes(l: seq<Option<Spectrum>>): (r: seq<Spectrum>)
    ensures |r| <= |l|
    ensures forall s :: s in r <==> Some(s) in l
  {
    if l == [] then []
    else (if l[0].Some? then [l[0].value] else []) + Somes(l[1..])
  }

  /** `coadd_spectra`: the configured coadd arms that were fitted, each without its missing spectra. */
  function CoaddPick(coaddArms: seq<char>, fitted: Lists): (m: map<char, seq<Spectrum>>)
    ensures forall a :: a in m <==> a in coaddArms && a in fitted
  {
    map a | a in fitted && a in coaddArms :: Somes(fitted[a])
  }

  /** Some arm holds a spectrum. */
  predicate HasSpectrum(m: map<char, seq<Spectrum>>) {
    exists a :: a in m && m[a] != []
  }

  /** The spectra passed to the stacker: those of each coadd arm in configured order. */
  function Stacked(coaddArms: seq<char>, m: map<char, seq<Spectrum>>): seq<Spectrum>
    decreases |coaddArms|
  {
    if coaddArms == [] then []
    else
      var n := |coaddArms| - 1;
      Stacked(coaddArms[..n], m) + (if coaddArms[n] in m then m[coaddArms[n]] else [])
  }

  /** A spectrum is stacked exactly when it belongs to a configured coadd arm. */
  lemma {:induction false} StackedMembers(coaddArms: seq<char>, m: map<char, seq<Spectrum>>, s: Spectrum)
    ensures s in Stacked(coaddArms, m) <==> exists a :: a in coaddArms && a in m && s in m[a]
    decreases |coaddArms|
  {
    if coaddArms != [] {
      var n := |coaddArms| - 1;
      StackedMembers(coaddArms[..n], m, s);
      if exists a :: a in coaddArms[..n] && a in m && s in m[a] {
        var a :| a in coaddArms[..n] && a in m && s in m[a];
        assert a in coaddArms;
      }
      if exists a :: a in coaddArms && a in m && s in m[a] {
        var a :| a in coaddArms && a in m && s in m[a];
        var i :| 0 <= i < |coaddArms| && coaddArms[i] == a;
        if i < n {
          assert a in coaddArms[..n];
        }
      }
    }
  }

  /** The stacked list of `coadd`: the arms in configured order, each arm's spectra in list order. */
  method StackList(coaddArms: seq<char>, m: map<char, seq<Spectrum>>) returns (ss: seq<Spectrum>)
    ensures ss == Stacked(coaddArms, m)
  {
    ss := [];
    var i := 0;
    while i < |coaddArms|
      invariant 0 <= i <= |coaddArms|
      invariant ss == Stacked(coaddArms[..i], m)
    {
      var a := coaddArms[i];
      assert coaddArms[..i + 1][..i] == coaddArms[..i];
      if a in m {
        ss := ss + m[a];
      }
      i := i + 1;
    }
    assert coaddArms[..i] == coaddArms;
  }

  /**
   * `__coadd_get_mask_flags`: the first spectrum met, whose mask flags
   * stand for all; None when there is no spectrum at all.
   */
  method FirstSpectrum(m: map<char, seq<Spectrum>>) returns (s: Option<Spectrum>)
    ensures s.Some? ==> exists a :: a in m && s.value in m[a]
    ensures s.None? <==> !HasSpectrum(m)
  {
    var todo := m.Keys;
    while todo != {}
      invariant todo <= m.Keys
      invariant forall a :: a in m && a !in todo ==> m[a] == []
      decreases todo
    {
      var a :| a in todo;
      if m[a] != [] {
        return Some(m[a][0]);
      }
      todo := todo - {a};
    }
    return None;
  }

  /** After a collection that went through, every kept arm lists a spectrum. */
  lemma KeptArmHasSpectrum(input: Spectra, use: set<char>, visits: seq<int>, sc: Screening, a: char)
    requires Collected(input, use, visits, sc).Ok? && a in Collected(input, use, visits, sc).value
    ensures var l := Collected(input, use, visits, sc).value;
      exists k :: 0 <= k < |l[a]| && l[a][k].Some?
  {
    var l := Collected(input, use, visits, sc).value;
    CollectMeaning(input, use, visits, sc);
    var v :| v in visits && Kept(input, a, v, sc).Some?;
    var live := LiveVisits(input, use, visits, sc);
    assert v in live;
    AscendHas(live, v);
    var vs := Ascend(live);
    var k :| 0 <= k < |vs| && vs[k] == v;
    assert l[a][k] == Kept(input, a, v, sc);
  }

  /**
   * After a collection that went through, the coadd finds a spectrum
   * exactly when some configured coadd arm was kept.
   */
  lemma CoaddFindsSpectrum(input: Spectra, use: set<char>, visits: seq<int>, sc: Screening, coaddArms: seq<char>)
    requires Collected(input, use, visits, sc).Ok?
    ensures var l := Collected(input, use, visits, sc).value;
      HasSpectrum(CoaddPick(coaddArms, l)) <==> exists a :: a in coaddArms && a in l
  {
    var l: Lists := Collected(input, use, visits, sc).value;
    if a: char :| a in coaddArms && a in l {
      KeptArmHasSpectrum(input, use, visits, sc, a);
      var k: int :| 0 <= k < |l[a]| && l[a][k].Some?;
      assert Some(l[a][k].value) in l[a];
      assert l[a][k].value in CoaddPick(coaddArms, l)[a];
    }
  }

  // ---------------------------------------------------------------------
  // The step's state

  /** What `validate_config` leaves behind, given the arms the products offer. */
  predicate Validated(avail: Result<set<char>>, fitArms: seq<char>, requireAll: bool, r: Runner.Call, arms: set<char>, arms0: set<char>) {
    if avail.Fail? then r == Runner.Raised(avail.error) && arms == arms0
    else
      var sel := Selection(fitArms, avail.value, requireAll);
      if sel.Ok? then r == Runner.Done && arms == sel.value
      else r == Runner.Raised(sel.error) && arms == set a | a in fitArms[..FirstMissing(fitArms, avail.value)]
  }

  /** What the collection in `load` leaves behind. */
  predicate Loaded(c: Result<Lists>, r: Runner.Call, spectra: Lists, spectra0: Lists) {
    if c.Fail? then r == Runner.Raised(c.error) && spectra == spectra0
    else r == Runner.Done && spectra == c.value
  }

  /** The attributes the RV-fit step sets on the pipeline. */
  class FitState {
    /** `rvfit_arms`. */
    var arms: set<char>
    /** `rvfit_grids`: for each arm, the position in `gridFiles` of its grid. */
    var grids: map<char, nat>
    /** The grid files loaded, in load order. */
    var gridFiles: seq<string>
    /** `rvfit_spectra`. */
    var spectra: Lists
    /** `coadd_spectra`. */
    var coaddSpectra: map<char, seq<Spectrum>>
    /** The spectra handed to the stacker. */
    var stacked: seq<Spectrum>

    /** Nothing fitted yet. */
    constructor ()
      ensures arms == {} && grids == map[] && gridFiles == [] && spectra == map[] && coaddSpectra == map[] && stacked == []
    {
      arms, grids, gridFiles, spectra, coaddSpectra, stacked := {}, map[], [], map[], map[], [];
    }

    /**
     * `validate_config`: skips the substeps when RV fitting is off; else
     * the fitted arms are the configured arms the required products offer,
     * PipelineError when all are required and one is missing. A missing
     * product-type list cannot be iterated (TypeError).
     */
    method ValidateConfig(runRvfit: bool, required: Option<seq<Product>>, c: Option<Cache>, items: seq<VisitItem>,
                          fitArms: seq<char>, requireAll: bool) returns (r: Runner.Call)
      modifies this
      ensures grids == old(grids) && gridFiles == old(gridFiles) && spectra == old(spectra)
      ensures coaddSpectra == old(coaddSpectra) && stacked == old(stacked)
      ensures !runRvfit ==> r == Runner.SkipSubsteps && arms == old(arms)
      ensures runRvfit && required.None? ==> r == Runner.Raised(TypeError) && arms == old(arms)
      ensures runRvfit && required.Some? ==>
        Validated(ObservedArms(RvFitSurvey(c, items), required.value), fitArms, requireAll, r, arms, old(arms))
    {
      if !runRvfit {
        return Runner.SkipSubsteps;
      }
      if required.None? {
        return Runner.Raised(TypeError);
      }
      var avail := SurveyArms(RvFitSurvey(c, items), required.value);
      if avail.Fail? {
        return Runner.Raised(avail.error);
      }
      var chosen, failure := SelectArms(fitArms, avail.value, requireAll);
      arms := chosen;
      if failure.Some? {
        return Runner.Raised(failure.value);
      }
      return Runner.Done;
    }

    /**
     * `load`: the grids of the fitted arms, then the collection of the
     * spectra `read_spectra` returned for them (`input`), screened without
     * skipping mostly masked spectra. The signal-to-noise pass leaves
     * missing spectra alone here.
     */
    method Load(gp: GridPath, fmt: Format, input: Spectra, visits: seq<int>, count: Spectrum -> PixelCount, minUnmasked: int)
      returns (r: Runner.Call)
      modifies this
      ensures arms == old(arms) && coaddSpectra == old(coaddSpectra) && stacked == old(stacked)
      ensures GridMissing(arms, gp, fmt) ==>
        r == Runner.Raised(KeyError) && grids == old(grids) && gridFiles == old(gridFiles) && spectra == old(spectra)
      ensures !GridMissing(arms, gp, fmt) ==>
        GridsShared(arms, gp, fmt, grids, gridFiles) &&
        Loaded(Collected(input, arms, visits, Screening(count, false, minUnmasked)), r, spectra, old(spectra))
    {
      var g, files, failure := LoadGrids(arms, gp, fmt);
      if failure.Some? {
        return Runner.Raised(failure.value);
      }
      grids, gridFiles := g, files;
      var l := Collect(input, arms, visits, Screening(count, false, minUnmasked));
      if l.Fail? {
        return Runner.Raised(l.error);
      }
      spectra := l.value;
      return Runner.Done;
    }

    /**
     * `coadd`: skips the rest when RV fitting or coadding is off; else the
     * coadd spectra are the fitted coadd arms without missing spectra, and
     * with no spectrum at all the mask flag lookup returns None and its
     * unpacking raises TypeError.
     */
    method Coadd(runRvfit: bool, runCoadd: bool, coaddArms: seq<char>) returns (r: Runner.Call)
      modifies this
      ensures arms == old(arms) && grids == old(grids) && gridFiles == old(gridFiles) && spectra == old(spectra)
      ensures !runRvfit || !runCoadd ==>
        r == Runner.SkipRemaining && coaddSpectra == old(coaddSpectra) && stacked == old(stacked)
      ensures runRvfit && runCoadd ==> coaddSpectra == CoaddPick(coaddArms, spectra)
      ensures runRvfit && runCoadd && !HasSpectrum(coaddSpectra) ==> r == Runner.Raised(TypeError) && stacked == old(stacked)
      ensures runRvfit && runCoadd && HasSpectrum(coaddSpectra) ==> r == Runner.Done && stacked == Stacked(coaddArms, coaddSpectra)
    {
      if !runRvfit || !runCoadd {
        return Runner.SkipRemaining;
      }
      coaddSpectra := CoaddPick(coaddArms, spectra);
      var first := FirstSpectrum(coaddSpectra);
      if first.None? {
        return Runner.Raised(TypeError);
      }
      stacked := StackList(coaddArms, coaddSpectra);
      return Runner.Done;
    }
  }
}
