/**
 * The broadband photometry the configure script takes from the object's
 * pfsConfig row (scripts/configure/configurescript.py, the
 * `__configure_tempfit_magnitudes_pfs_config` function). Each filter of
 * the row is matched to the first photometry entry of the template that
 * names it, the entry receives the first finite (flux, error) pair in the
 * order psf, fiber, total, and entries left without a flux are dropped.
 */
module Photometry {
  import opened Wrappers

  /** A flux or flux error as stored in the pfsConfig arrays. */
  datatype Reading = Absent | NonFinite | Finite(x: real)

  /** `filter_name` of a magnitude entry: None, one name, or a list of names. */
  datatype FilterName = Unset | Name(s: string) | Names(names: seq<string>)

  datatype Magnitude = Magnitude(filterName: FilterName, flux: Option<real>, fluxError: Option<real>)

  /** The photometry dictionary, in insertion order. */
  type Entries = seq<(string, Magnitude)>

  /** One filter of the object's pfsConfig row: its name and its three (flux, error) pairs. */
  datatype FilterFluxes = FilterFluxes(
    name: Option<string>, psf: (Reading, Reading), fiber: (Reading, Reading), total: (Reading, Reading))

  /**
   * Whether entry `key` stands for filter `name`: on its key when the
   * entry names no filter (None or an empty list), otherwise on its names.
   */
  predicate Matches(key: string, mag: Magnitude, name: string) {
    match mag.filterName
    case Unset => key == name
    case Names(ns) => if ns == [] then key == name else name in ns
    case Name(s) => s == name
  }

  /** The entry the loop over the dictionary stops at. */
  function FirstMatch(es: Entries, name: string): (r: Option<nat>)
    ensures r.Some? ==> r.value < |es| && Matches(es[r.value].0, es[r.value].1, name)
    ensures r.Some? ==> forall j :: 0 <= j < r.value ==> !Matches(es[j].0, es[j].1, name)
    ensures r.None? ==> forall j :: 0 <= j < |es| ==> !Matches(es[j].0, es[j].1, name)
  {
    if es == [] then None
    else if Matches(es[0].0, es[0].1, name) then Some(0)
    else
      var t := FirstMatch(es[1..], name);
      if t.None? then None else Some(t.value + 1)
  }

  predicate Usable(p: (Reading, Reading)) {
    p.0.Finite? && p.1.Finite?
  }

  /** The first pair with a finite flux and a finite error, preferring psf, then fiber, then total. */
  function FirstFinite(f: FilterFluxes): (r: Option<(real, real)>)
    ensures r.None? <==> !Usable(f.psf) && !Usable(f.fiber) && !Usable(f.total)
    ensures Usable(f.psf) ==> r == Some((f.psf.0.x, f.psf.1.x))
    ensures !Usable(f.psf) && Usable(f.fiber) ==> r == Some((f.fiber.0.x, f.fiber.1.x))
    ensures !Usable(f.psf) && !Usable(f.fiber) && Usable(f.total) ==> r == Some((f.total.0.x, f.total.1.x))
  {
    if Usable(f.psf) then Some((f.psf.0.x, f.psf.1.x))
    else if Usable(f.fiber) then Some((f.fiber.0.x, f.fiber.1.x))
    else if Usable(f.total) then Some((f.total.0.x, f.total.1.x))
    else None
  }

  /** The filter is a real one: neither None nor the name `none`. */
  predicate Named(f: FilterFluxes) {
    f.name.Some? && f.name.value != "none"
  }

  /** What one filter of the row does to the dictionary. */
  function ApplyFilter(es: Entries, f: FilterFluxes): (r: Entries)
    ensures |r| == |es|
  {
    if !Named(f) then es
    else
      var j := FirstMatch(es, f.name.value);
      var p := FirstFinite(f);
      if j.None? || p.None? then es
      else es[j.value := (es[j.value].0, es[j.value].1.(flux := Some(p.value.0), fluxError := Some(p.value.1)))]
  }

  /** The loop over the row's filters. */
  function ApplyFilters(es: Entries, fs: seq<FilterFluxes>): (r: Entries)
    ensures |r| == |es|
    decreases |fs|
  {
    if fs == [] then es else ApplyFilter(ApplyFilters(es, fs[..|fs| - 1]), fs[|fs| - 1])
  }

  /** Only the entries that have a flux are kept, in their order. */
  function KeepMeasured(es: Entries): (r: Entries)
    ensures forall e :: e in r <==> e in es && e.1.flux.Some?
    ensures |r| <= |es|
  {
    if es == [] then []
    else
      var n := |es| - 1;
      var init := KeepMeasured(es[..n]);
      assert es == es[..n] + [es[n]];
      if es[n].1.flux.Some? then init + [es[n]] else init
  }

  /**
   * The whole function: a dictionary that is None skips the filter loop
   * and then fails on `None.items()` with AttributeError.
   */
  function ConfigurePhotometry(es: Option<Entries>, fs: seq<FilterFluxes>): Result<Entries> {
    if es.None? then Fail(AttributeError) else Ok(KeepMeasured(ApplyFilters(es.value, fs)))
  }

  // ---------------------------------------------------------------------
  // Properties

  /** Filters set fluxes and nothing else: keys and filter names stay as they were. */
  lemma {:induction false} ApplyFiltersKeepsShape(es: Entries, fs: seq<FilterFluxes>)
    ensures forall i :: 0 <= i < |es| ==>
      ApplyFilters(es, fs)[i].0 == es[i].0 && ApplyFilters(es, fs)[i].1.filterName == es[i].1.filterName
    decreases |fs|
  {
    if fs != [] {
      ApplyFiltersKeepsShape(es, fs[..|fs| - 1]);
    }
  }

  /**
   * After the filter loop an entry's flux is its template flux, or the
   * first finite pair of a filter whose first match it is.
   */
  lemma {:induction false} FluxOrigin(es: Entries, fs: seq<FilterFluxes>, i: nat)
    requires i < |es|
    ensures var m := ApplyFilters(es, fs)[i].1;
      (m.flux == es[i].1.flux && m.fluxError == es[i].1.fluxError) ||
      exists k :: 0 <= k < |fs| && Named(fs[k]) && FirstMatch(es, fs[k].name.value) == Some(i) &&
        FirstFinite(fs[k]).Some? && m.flux == Some(FirstFinite(fs[k]).value.0) && m.fluxError == Some(FirstFinite(fs[k]).value.1)
    decreases |fs|
  {
    if fs != [] {
      var init := fs[..|fs| - 1];
      var f := fs[|fs| - 1];
      var before := ApplyFilters(es, init);
      FluxOrigin(es, init, i);
      ApplyFiltersKeepsShape(es, init);
      if Named(f) {
        MatchDependsOnShape(before, es, f.name.value);
      }
      var m := ApplyFilters(es, fs)[i].1;
      if m != before[i].1 {
        assert Named(f) && FirstMatch(es, f.name.value) == Some(i) && FirstFinite(f).Some?;
        assert fs[|fs| - 1] == f;
      } else {
        var mb := before[i].1;
        if !(mb.flux == es[i].1.flux && mb.fluxError == es[i].1.fluxError) {
          var k :| 0 <= k < |init| && Named(init[k]) && FirstMatch(es, init[k].name.value) == Some(i) &&
            FirstFinite(init[k]).Some? && mb.flux == Some(FirstFinite(init[k]).value.0) && mb.fluxError == Some(FirstFinite(init[k]).value.1);
          assert fs[k] == init[k];
        }
      }
    }
  }

  /** The first entry that matches is the one `FirstMatch` names. */
  lemma {:induction false} FirstMatchIs(es: Entries, name: string, j: nat)
    requires j < |es| && Matches(es[j].0, es[j].1, name)
    requires forall q :: 0 <= q < j ==> !Matches(es[q].0, es[q].1, name)
    ensures FirstMatch(es, name) == Some(j)
    decreases j
  {
    if j > 0 {
      FirstMatchIs(es[1..], name, j - 1);
    }
  }

  /** Matching reads only keys and filter names, so a dictionary with new fluxes matches as before. */
  lemma {:induction false} MatchDependsOnShape(a: Entries, b: Entries, name: string)
    requires |a| == |b|
    requires forall i :: 0 <= i < |a| ==> a[i].0 == b[i].0 && a[i].1.filterName == b[i].1.filterName
    ensures FirstMatch(a, name) == FirstMatch(b, name)
    decreases |a|
  {
    if a != [] {
      MatchDependsOnShape(a[1..], b[1..], name);
    }
  }

  /** A filter with a finite pair sets the flux of the entry it first matches. */
  lemma LastFilterSets(es: Entries, fs: seq<FilterFluxes>, f: FilterFluxes)
    requires Named(f) && FirstMatch(es, f.name.value).Some? && FirstFinite(f).Some?
    ensures var i := FirstMatch(es, f.name.value).value;
      ApplyFilters(es, fs + [f])[i].1.flux == Some(FirstFinite(f).value.0) &&
      ApplyFilters(es, fs + [f])[i].1.fluxError == Some(FirstFinite(f).value.1)
  {
    assert (fs + [f])[..|fs|] == fs;
    ApplyFiltersKeepsShape(es, fs);
    MatchDependsOnShape(ApplyFilters(es, fs), es, f.name.value);
  }

  /**
   * The configured dictionary holds exactly the entries that end the
   * filter loop with a flux; with no dictionary the function raises.
   */
  lemma ConfiguredEntries(es: Option<Entries>, fs: seq<FilterFluxes>)
    ensures es.None? <==> ConfigurePhotometry(es, fs) == Fail(AttributeError)
    ensures es.Some? ==>
      ConfigurePhotometry(es, fs).Ok? &&
      forall e :: e in ConfigurePhotometry(es, fs).value <==> e in ApplyFilters(es.value, fs) && e.1.flux.Some?
  {
  }
}
