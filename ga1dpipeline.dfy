/**
 * The legacy single-object pipeline (ga1dpipeline.py): validation of the
 * loaded pfsSingle files, the arms they offer, the mask bits of a file,
 * the spectra read per arm and visit, the RV-fit arm selection and
 * spectra collection, the grid sharing, the coadd selection, the skip
 * rules of the velocity-correction and coadd steps and the legacy
 * stellar-parameter table.
 *
 * A pfsSingle file is the value of the fields the pipeline reads; an
 * integer mask is the set of the positions of its set bits, so that a
 * bitwise OR is a union. Reading a spectrum, the wavelength limits of the
 * arms, the mask of a spectrum and all fitting and stacking numerics are
 * parameters or left out.
 */
module Ga1dPipeline {
  import opened Wrappers
  import opened GaPipeline
  import opened SortedKeys
  import SaveStep
  import RvFitStep
  import Runner

  // ---------------------------------------------------------------------
  // pfsSingle files

  /** The target of a pfsSingle file; two targets are equal when every field is. */
  datatype Target = Target(catId: int, objId: int, tract: int, patch: string)

  /**
   * What the pipeline reads from a pfsSingle file: `nVisit`,
   * `observations.visit`, `target`, `observations.arm[0]` (one string of arm
   * letters) and the mask flag table, each flag's value as its set bits.
   */
  datatype Single = Single(nVisit: int, visits: seq<int>, target: Target, arms: string, flags: map<string, set<nat>>)

  /** `__load_validate_pfsSingle`: one visit, the right visit number, and the configured catId and objId. */
  predicate SingleValid(visit: int, s: Single, catId: int, objId: int) {
    s.nVisit == 1 && visit in s.visits && s.target.catId == catId && s.target.objId == objId
  }

  /**
   * `__get_mask_bits`: None without mask flags; else the OR of the named
   * flags' bits, KeyError for a flag the file does not define. An empty
   * flag list gives the empty mask, not None.
   */
  method GetMaskBits(s: Single, maskFlags: Option<seq<string>>) returns (r: Result<Option<set<nat>>>)
    ensures maskFlags.None? ==> r == Ok(None)
    ensures maskFlags.Some? ==> (r.Fail? <==> exists n :: n in maskFlags.value && n !in s.flags)
    ensures r.Fail? ==> r.error == KeyError
    ensures maskFlags.Some? && r.Ok? ==>
      r.value.Some? &&
      forall b :: b in r.value.value <==> exists n :: n in maskFlags.value && n in s.flags && b in s.flags[n]
  {
    if maskFlags.None? {
      return Ok(None);
    }
    var names := maskFlags.value;
    var bits: set<nat> := {};
    var i := 0;
    while i < |names|
      invariant 0 <= i <= |names|
      invariant forall j :: 0 <= j < i ==> names[j] in s.flags
      invariant forall b :: b in bits <==> exists j :: 0 <= j < i && b in s.flags[names[j]]
    {
      if names[i] !in s.flags {
        return Fail(KeyError);
      }
      bits := bits + s.flags[names[i]];
      i := i + 1;
    }
    r := Ok(Some(bits));
    forall b | b in bits
      ensures exists n :: n in names && n in s.flags && b in s.flags[n]
    {
      var j :| 0 <= j < i && b in s.flags[names[j]];
      assert names[j] in names;
    }
    forall b, n | n in names && n in s.flags && b in s.flags[n]
      ensures b in bits
    {
      var j :| 0 <= j < |names| && names[j] == n;
    }
  }

  /** `set.add` for each letter of `s`. */
  method AddLetters(arms: set<char>, s: string) returns (out: set<char>)
    ensures forall c :: c in out <==> c in arms || c in s
  {
    out := arms;
    var i := 0;
    while i < |s|
      invariant 0 <= i <= |s|
      invariant forall c :: c in out <==> c in arms || c in s[..i]
    {
      if s[i] !in out {
        out := out + {s[i]};
      }
      assert s[..i + 1] == s[..i] + [s[i]];
      i := i + 1;
    }
    assert s[..i] == s;
  }

  // ---------------------------------------------------------------------
  // Velocity correction

  /** ASCII `str.lower` on one letter. */
  function LowerChar(c: char): (d: char)
    ensures 'A' <= c <= 'Z' ==> d as int == c as int + 32
    ensures !('A' <= c <= 'Z') ==> d == c
  {
    if 'A' <= c <= 'Z' then (c as int + 32) as char else c
  }

  /**
   * `s.lower() == 'none'`. Only ASCII capitals lower to `n`, `o` and `e`,
   * so lowering the ASCII letters decides this test exactly.
   */
  predicate IsNoneWord(s: string) {
    |s| == 4 && seq(4, i requires 0 <= i < 4 => LowerChar(s[i])) == "none"
  }

  /** Which strings the test accepts: `none` in any letter case, and nothing else. */
  lemma NoneWordLetters(s: string)
    ensures IsNoneWord(s) <==>
      |s| == 4 && (s[0] == 'n' || s[0] == 'N') && (s[1] == 'o' || s[1] == 'O') &&
      (s[2] == 'n' || s[2] == 'N') && (s[3] == 'e' || s[3] == 'E')
  {
    if |s| == 4 {
      var l := seq(4, i requires 0 <= i < 4 => LowerChar(s[i]));
      assert l[0] == LowerChar(s[0]) && l[1] == LowerChar(s[1]) && l[2] == LowerChar(s[2]) && l[3] == LowerChar(s[3]);
      if IsNoneWord(s) {
        assert l[0] == 'n' && l[1] == 'o' && l[2] == 'n' && l[3] == 'e';
      }
    }
  }

  /**
   * `__step_vcorr`: the corrections run unless `v_corr` is None or spells
   * `none`; then the step only skips its substeps.
   */
  function VCorrStep(vCorr: Option<string>): (r: Runner.Call)
    ensures r == Runner.SkipSubsteps || r == Runner.Done
    ensures r == Runner.SkipSubsteps <==> vCorr.None? || IsNoneWord(vCorr.value)
  {
    if vCorr.Some? && !IsNoneWord(vCorr.value) then Runner.Done else Runner.SkipSubsteps
  }

  /** An empty `v_corr` is not `none`: the corrections run. */
  lemma EmptyVCorrRuns()
    ensures VCorrStep(Some("")) == Runner.Done
    ensures VCorrStep(Some("None")) == Runner.SkipSubsteps && VCorrStep(Some("NONE")) == Runner.SkipSubsteps
  {
    NoneWordLetters("None");
    NoneWordLetters("NONE");
  }

  // ---------------------------------------------------------------------
  // Spectra collection

  /**
   * The collection settings: the number of pixels the mask of a spectrum
   * leaves usable, `min_unmasked_pixels`, and the three skip flags.
   */
  datatype Screening = Screening(unmasked: Spectrum -> nat, minUnmasked: int,
                                 skipFullyMasked: bool, skipMostlyMasked: bool, skipNone: bool)

  /** The defaults of `__rvfit_collect_spectra`: nothing is skipped. */
  function Defaults(unmasked: Spectrum -> nat, minUnmasked: int): (sc: Screening)
    ensures !sc.skipFullyMasked && !sc.skipMostlyMasked && !sc.skipNone
  {
    Screening(unmasked, minUnmasked, false, false, false)
  }

  /**
   * What one cell adds to its arm's list: a fully masked spectrum is
   * skipped or replaced by None, a mostly masked one may be skipped, and
   * a None is appended unless None is skipped.
   */
  function Appended(s: Option<Spectrum>, sc: Screening): (r: seq<Option<Spectrum>>)
    ensures |r| <= 1
  {
    if s.None? then (if sc.skipNone then [] else [None])
    else if sc.unmasked(s.value) == 0 then (if sc.skipFullyMasked || sc.skipNone then [] else [None])
    else if sc.skipMostlyMasked && sc.unmasked(s.value) < sc.minUnmasked then []
    else [s]
  }

  /** The list of one arm, over the visits `vs` in that order. */
  function ArmList(m: map<int, Option<Spectrum>>, vs: seq<int>, sc: Screening): seq<Option<Spectrum>>
    requires forall k :: 0 <= k < |vs| ==> vs[k] in m
  {
    if vs == [] then [] else ArmList(m, vs[..|vs| - 1], sc) + Appended(m[vs[|vs| - 1]], sc)
  }

  /**
   * With nothing skipped every visit contributes one entry, in visit order:
   * its spectrum, or None when it is missing or fully masked.
   */
  lemma {:induction false} ArmListDefaults(m: map<int, Option<Spectrum>>, vs: seq<int>, sc: Screening)
    requires forall k :: 0 <= k < |vs| ==> vs[k] in m
    requires !sc.skipFullyMasked && !sc.skipMostlyMasked && !sc.skipNone
    ensures |ArmList(m, vs, sc)| == |vs|
    ensures forall k :: 0 <= k < |vs| ==>
      ArmList(m, vs, sc)[k] == (if m[vs[k]].Some? && sc.unmasked(m[vs[k]].value) == 0 then None else m[vs[k]])
  {
    if vs != [] {
      ArmListDefaults(m, vs[..|vs| - 1], sc);
    }
  }

  /** With `skip_none` no entry is None. */
  lemma {:induction false} ArmListSkipNone(m: map<int, Option<Spectrum>>, vs: seq<int>, sc: Screening)
    requires forall k :: 0 <= k < |vs| ==> vs[k] in m
    requires sc.skipNone
    ensures forall k :: 0 <= k < |ArmList(m, vs, sc)| ==> ArmList(m, vs, sc)[k].Some?
  {
    if vs != [] {
      ArmListSkipNone(m, vs[..|vs| - 1], sc);
    }
  }

  /**
   * Every spectrum of the list is the spectrum of one of the visits, with
   * an unmasked pixel, and with enough of them when mostly masked spectra
   * are skipped.
   */
  lemma {:induction false} ArmListFrom(m: map<int, Option<Spectrum>>, vs: seq<int>, sc: Screening, s: Spectrum)
    requires forall k :: 0 <= k < |vs| ==> vs[k] in m
    requires Some(s) in ArmList(m, vs, sc)
    ensures exists k :: 0 <= k < |vs| && m[vs[k]] == Some(s)
    ensures sc.unmasked(s) > 0 && !(sc.skipMostlyMasked && sc.unmasked(s) < sc.minUnmasked)
  {
    var n := |vs| - 1;
    if Some(s) in ArmList(m, vs[..n], sc) {
      ArmListFrom(m, vs[..n], sc, s);
      var k :| 0 <= k < n && m[vs[..n][k]] == Some(s);
      assert vs[..n][k] == vs[k];
    } else {
      assert m[vs[n]] == Some(s);
    }
  }

  /** The collected lists of the arms `arms`, an arm only when its list is not empty. */
  function Collection(spectra: Spectra, arms: set<char>, sc: Screening): map<char, seq<Option<Spectrum>>>
    requires arms <= spectra.Keys
  {
    map a | a in arms && ArmList(spectra[a], Ascend(spectra[a].Keys), sc) != [] :: ArmList(spectra[a], Ascend(spectra[a].Keys), sc)
  }

  /** The inner loop of `__rvfit_collect_spectra`: one arm, visits in ascending order. */
  method CollectArm(m: map<int, Option<Spectrum>>, sc: Screening) returns (l: seq<Option<Spectrum>>)
    ensures l == ArmList(m, Ascend(m.Keys), sc)
  {
    var vs := Ascend(m.Keys);
    l := [];
    var i := 0;
    while i < |vs|
      invariant 0 <= i <= |vs|
      invariant l == ArmList(m, vs[..i], sc)
    {
      assert vs[..i + 1][..i] == vs[..i];
      l := l + Appended(m[vs[i]], sc);
      i := i + 1;
    }
    assert vs[..i] == vs;
  }

  /** The stack of one coadd arm: its spectra, None when it has none. */
  function Stack(l: seq<Option<Spectrum>>): (r: Option<seq<Spectrum>>)
    ensures r.None? <==> forall k :: 0 <= k < |l| ==> l[k].None?
    ensures r.Some? ==> forall s :: s in r.value <==> Some(s) in l
  {
    var ss := RvFitStep.Somes(l);
    if ss == [] then
      assert forall k :: 0 <= k < |l| ==> l[k].None? by {
        forall k | 0 <= k < |l| ensures l[k].None? {
          assert l[k] in l;
        }
      }
      None
    else
      assert exists k :: 0 <= k < |l| && l[k].Some? by {
        assert Some(ss[0]) in l;
      }
      Some(ss)
  }

  // ---------------------------------------------------------------------
  // Grid and PSF file checks of `__step_init`

  /** The check of one fit arm: its grid path (KeyError), the grid file, then the PSF file. */
  function ArmFilesFailure(a: char, gp: RvFitStep.GridPath, fmt: RvFitStep.Format, psf: Option<string>, files: set<string>): Option<Error> {
    var g := RvFitStep.GridFile(gp, fmt, a);
    if g.Fail? then Some(g.error)
    else if g.value !in files then Some(FileNotFoundError)
    else if psf.Some? && fmt(psf.value, a) !in files then Some(FileNotFoundError)
    else None
  }

  /** The first failing arm's error. */
  function InitFailure(arms: seq<char>, gp: RvFitStep.GridPath, fmt: RvFitStep.Format, psf: Option<string>, files: set<string>): Option<Error> {
    if arms == [] then None
    else
      var f := InitFailure(arms[..|arms| - 1], gp, fmt, psf, files);
      if f.Some? then f else ArmFilesFailure(arms[|arms| - 1], gp, fmt, psf, files)
  }

  /** One arm's check passes exactly when its grid file and, with a PSF path, its PSF file exist; it fails with KeyError or FileNotFoundError. */
  lemma ArmFilesMeans(a: char, gp: RvFitStep.GridPath, fmt: RvFitStep.Format, psf: Option<string>, files: set<string>)
    ensures ArmFilesFailure(a, gp, fmt, psf, files).None? <==>
      RvFitStep.GridFile(gp, fmt, a).Ok? && RvFitStep.GridFile(gp, fmt, a).value in files &&
      (psf.Some? ==> fmt(psf.value, a) in files)
    ensures ArmFilesFailure(a, gp, fmt, psf, files) in {None, Some(KeyError), Some(FileNotFoundError)}
  {
    var g := RvFitStep.GridFile(gp, fmt, a);
    assert g.Fail? ==> g.error == KeyError;
  }

  /**
   * The checks pass exactly when every fit arm has a grid path naming an
   * existing file and, with a PSF path, an existing PSF file; a failure is
   * KeyError or FileNotFoundError.
   */
  lemma InitSucceeds(arms: seq<char>, gp: RvFitStep.GridPath, fmt: RvFitStep.Format, psf: Option<string>, files: set<string>)
    ensures InitFailure(arms, gp, fmt, psf, files).None? <==>
      forall a :: a in arms ==>
        RvFitStep.GridFile(gp, fmt, a).Ok? && RvFitStep.GridFile(gp, fmt, a).value in files &&
        (psf.Some? ==> fmt(psf.value, a) in files)
    ensures InitFailure(arms, gp, fmt, psf, files) in {None, Some(KeyError), Some(FileNotFoundError)}
  {
    InitPasses(arms, gp, fmt, psf, files);
    InitErrors(arms, gp, fmt, psf, files);
    forall a | a in arms {
      ArmFilesMeans(a, gp, fmt, psf, files);
    }
  }

  /** The checks pass exactly when every arm's check passes. */
  lemma {:induction false} InitPasses(arms: seq<char>, gp: RvFitStep.GridPath, fmt: RvFitStep.Format, psf: Option<string>, files: set<string>)
    ensures InitFailure(arms, gp, fmt, psf, files).None? <==>
      forall a :: a in arms ==> ArmFilesFailure(a, gp, fmt, psf, files).None?
  {
    if arms != [] {
      var n := |arms| - 1;
      InitPasses(arms[..n], gp, fmt, psf, files);
      assert arms == arms[..n] + [arms[n]];
    }
  }

  /** A failure of the checks is the failure of one arm's check. */
  lemma {:induction false} InitErrors(arms: seq<char>, gp: RvFitStep.GridPath, fmt: RvFitStep.Format, psf: Option<string>, files: set<string>)
    ensures InitFailure(arms, gp, fmt, psf, files) in {None, Some(KeyError), Some(FileNotFoundError)}
  {
    if arms != [] {
      var n := |arms| - 1;
      InitErrors(arms[..n], gp, fmt, psf, files);
      ArmFilesMeans(arms[n], gp, fmt, psf, files);
    }
  }

  // ---------------------------------------------------------------------
  // Legacy stellar parameters (`__get_stellar_params`)

  /** `params_fit`: the free parameters, then `v_los`. */
  function FitNames(res: SaveStep.FitResults): seq<string> {
    res.paramsFree + ["v_los"]
  }

  /** The names of `ks` not in `fit`, in order. */
  function Others(ks: seq<string>, fit: seq<string>): (r: seq<string>)
    ensures forall p :: p in r <==> p in ks && p !in fit
  {
    if ks == [] then []
    else
      var r := Others(ks[..|ks| - 1], fit) + (if ks[|ks| - 1] in fit then [] else [ks[|ks| - 1]]);
      assert ks == ks[..|ks| - 1] + [ks[|ks| - 1]];
      r
  }

  /** `params_all`: `params_fit`, then the other fitted parameters in order. */
  function AllNames(res: SaveStep.FitResults): seq<string> {
    FitNames(res) + Others(SaveStep.Keys(res.paramsFit), FitNames(res))
  }

  /** The value and error of row `i`: the velocity's at position `len(params_free)`, else looked up; KeyError when missing. */
  function CellOf(res: SaveStep.FitResults, rows: seq<string>, i: nat): Result<(real, real)>
    requires i < |rows|
  {
    if i == |res.paramsFree| then Ok((res.rvFit, res.rvErr))
    else
      var v := SaveStep.Get(res.paramsFit, rows[i]);
      var e := SaveStep.Get(res.paramsErr, rows[i]);
      if v.Some? && e.Some? then Ok((v.value, e.value)) else Fail(KeyError)
  }

  /** A row without a unit, a value or an error. */
  predicate RowMissing(res: SaveStep.FitResults, rows: seq<string>) {
    exists i :: 0 <= i < |rows| && (rows[i] !in SaveStep.Units || CellOf(res, rows, i).Fail?)
  }

  /** `covarId`: the position in `params_fit`, 255 for a parameter not there. */
  function LegacyCovarId(fit: seq<string>, p: string): int {
    var k := SaveStep.IndexOf(fit, p);
    if k < |fit| then k else 255
  }

  /** A parameter not fitted has covariance id 255. */
  lemma NotFitted(fit: seq<string>, p: string)
    requires p !in fit
    ensures LegacyCovarId(fit, p) == 255
  {
  }

  /**
   * `__get_stellar_params`: one row per parameter of `params_all`, method
   * `ga1dpipe`, frame `bary`, flag False and empty status; a parameter
   * without a unit, value or error raises KeyError.
   */
  function LegacyStellarParams(res: SaveStep.FitResults): (r: Result<SaveStep.StellarParams>)
    ensures r.Fail? <==> RowMissing(res, AllNames(res))
    ensures r.Fail? ==> r.error == KeyError
    ensures r.Ok? ==> var t := r.value; var n := |AllNames(res)|;
      t.param == AllNames(res) &&
      |t.methodName| == n && |t.frame| == n && |t.covarId| == n && |t.unit| == n &&
      |t.value| == n && |t.valueErr| == n && |t.flag| == n && |t.status| == n
    ensures r.Ok? ==> var t := r.value; forall i :: 0 <= i < |t.param| ==>
      t.methodName[i] == "ga1dpipe" && t.frame[i] == "bary" && !t.flag[i] && t.status[i] == "" &&
      t.param[i] in SaveStep.Units && t.unit[i] == SaveStep.Units[t.param[i]] &&
      CellOf(res, t.param, i) == Ok((t.value[i], t.valueErr[i])) &&
      t.covarId[i] == LegacyCovarId(FitNames(res), t.param[i])
  {
    var rows := AllNames(res);
    var fit := FitNames(res);
    var n := |rows|;
    if RowMissing(res, rows) then Fail(KeyError)
    else
      Ok(SaveStep.StellarParams(
        seq(n, i => "ga1dpipe"), seq(n, i => "bary"), rows,
        seq(n, i requires 0 <= i < n => LegacyCovarId(fit, rows[i])),
        seq(n, i requires 0 <= i < n => if rows[i] in SaveStep.Units then SaveStep.Units[rows[i]] else ""),
        seq(n, i requires 0 <= i < n => match CellOf(res, rows, i) case Ok(c) => c.0 case Fail(_) => 0.0),
        seq(n, i requires 0 <= i < n => match CellOf(res, rows, i) case Ok(c) => c.1 case Fail(_) => 0.0),
        seq(n, i => false), seq(n, i => "")))
  }

  /**
   * The rows: the free parameters in order, then `v_los`, then every other
   * fitted parameter, and nothing else.
   */
  lemma LegacyRows(res: SaveStep.FitResults)
    ensures var rows := AllNames(res);
      rows[..|res.paramsFree|] == res.paramsFree && rows[|res.paramsFree|] == "v_los" &&
      forall p :: p in rows <==> p in res.paramsFree || p == "v_los" || p in SaveStep.Keys(res.paramsFit)
  {
    var rows := AllNames(res);
    assert rows[..|res.paramsFree|] == res.paramsFree;
    forall p
      ensures p in rows <==> p in res.paramsFree || p == "v_los" || p in SaveStep.Keys(res.paramsFit)
    {
      var others := Others(SaveStep.Keys(res.paramsFit), FitNames(res));
      assert p in rows <==> p in FitNames(res) || p in others;
    }
  }

  /** The row at each position: a free parameter, the velocity, or another fitted parameter. */
  lemma RowsAt(res: SaveStep.FitResults, i: nat)
    requires i < |AllNames(res)|
    ensures var rows := AllNames(res); var nf := |res.paramsFree|;
      (i < nf ==> rows[i] == res.paramsFree[i]) && (i == nf ==> rows[i] == "v_los") &&
      (i > nf ==> rows[i] == Others(SaveStep.Keys(res.paramsFit), FitNames(res))[i - nf - 1])
  {
  }

  /** A row of a free parameter fails when its value or error is missing. */
  lemma FreeRowFails(res: SaveStep.FitResults, p: string)
    requires p in res.paramsFree
    requires SaveStep.Get(res.paramsFit, p).None? || SaveStep.Get(res.paramsErr, p).None?
    ensures RowMissing(res, AllNames(res))
  {
    var i :| 0 <= i < |res.paramsFree| && res.paramsFree[i] == p;
    RowsAt(res, i);
    assert CellOf(res, AllNames(res), i).Fail?;
  }

  /** A row of another fitted parameter fails when its error is missing. */
  lemma OtherRowFails(res: SaveStep.FitResults, p: string)
    requires p in Others(SaveStep.Keys(res.paramsFit), FitNames(res))
    requires SaveStep.Get(res.paramsErr, p).None?
    ensures RowMissing(res, AllNames(res))
  {
    var others := Others(SaveStep.Keys(res.paramsFit), FitNames(res));
    var j :| 0 <= j < |others| && others[j] == p;
    var i := |res.paramsFree| + 1 + j;
    RowsAt(res, i);
    assert CellOf(res, AllNames(res), i).Fail?;
  }

  /** A failing row is one of the three cases. */
  lemma MissingRowCase(res: SaveStep.FitResults, i: nat)
    requires i < |AllNames(res)|
    requires AllNames(res)[i] in SaveStep.Units && CellOf(res, AllNames(res), i).Fail?
    ensures var p := AllNames(res)[i];
      (p in res.paramsFree && (SaveStep.Get(res.paramsFit, p).None? || SaveStep.Get(res.paramsErr, p).None?)) ||
      (p in Others(SaveStep.Keys(res.paramsFit), FitNames(res)) && SaveStep.Get(res.paramsErr, p).None?)
  {
    RowsAt(res, i);
    var p := AllNames(res)[i];
    var others := Others(SaveStep.Keys(res.paramsFit), FitNames(res));
    if i < |res.paramsFree| {
      assert p in res.paramsFree;
    } else {
      assert others[i - |res.paramsFree| - 1] == p;
      assert p in others;
      assert SaveStep.Get(res.paramsFit, p).Some?;
    }
  }

  /**
   * The table fails exactly when some row has no unit, a free parameter
   * has no fitted value or error, or another fitted parameter has no error.
   */
  lemma LegacyMissing(res: SaveStep.FitResults)
    ensures RowMissing(res, AllNames(res)) <==>
      (exists p :: p in AllNames(res) && p !in SaveStep.Units) ||
      (exists p :: p in res.paramsFree && (SaveStep.Get(res.paramsFit, p).None? || SaveStep.Get(res.paramsErr, p).None?)) ||
      (exists p :: p in Others(SaveStep.Keys(res.paramsFit), FitNames(res)) && SaveStep.Get(res.paramsErr, p).None?)
  {
    var rows := AllNames(res);
    if RowMissing(res, rows) {
      var i :| 0 <= i < |rows| && (rows[i] !in SaveStep.Units || CellOf(res, rows, i).Fail?);
      if rows[i] in SaveStep.Units {
        MissingRowCase(res, i);
      }
    }
    if p :| p in rows && p !in SaveStep.Units {
      var i :| 0 <= i < |rows| && rows[i] == p;
    }
    if p :| p in res.paramsFree && (SaveStep.Get(res.paramsFit, p).None? || SaveStep.Get(res.paramsErr, p).None?) {
      FreeRowFails(res, p);
    }
    if p :| p in Others(SaveStep.Keys(res.paramsFit), FitNames(res)) && SaveStep.Get(res.paramsErr, p).None? {
      OtherRowFails(res, p);
    }
  }

  /**
   * With distinct free parameters and no free `v_los`, the covariance id
   * of the first rows is their position and 255 for every other row; the
   * velocity row carries the RV fit.
   */
  lemma LegacyCovarIds(res: SaveStep.FitResults)
    requires LegacyStellarParams(res).Ok?
    requires forall i, j :: 0 <= i < j < |res.paramsFree| ==> res.paramsFree[i] != res.paramsFree[j]
    requires "v_los" !in res.paramsFree
    ensures var t := LegacyStellarParams(res).value; var nf := |res.paramsFree|;
      (forall i :: 0 <= i <= nf ==> t.covarId[i] == i) &&
      (forall i :: nf < i < |t.covarId| ==> t.covarId[i] == 255) &&
      t.value[nf] == res.rvFit && t.valueErr[nf] == res.rvErr && t.unit[nf] == "km s-1"
  {
    LegacyFitCovarIds(res);
    LegacyOtherCovarIds(res);
  }

  /** The covariance ids of the velocity row and the free parameters' rows are their positions. */
  lemma LegacyFitCovarIds(res: SaveStep.FitResults)
    requires LegacyStellarParams(res).Ok?
    requires forall i, j :: 0 <= i < j < |res.paramsFree| ==> res.paramsFree[i] != res.paramsFree[j]
    requires "v_los" !in res.paramsFree
    ensures var t := LegacyStellarParams(res).value; forall i :: 0 <= i <= |res.paramsFree| ==> t.covarId[i] == i
  {
    var t := LegacyStellarParams(res).value;
    var rows := AllNames(res);
    var fit := FitNames(res);
    var others := Others(SaveStep.Keys(res.paramsFit), fit);
    assert rows == fit + others;
    forall i | 0 <= i <= |res.paramsFree|
      ensures t.covarId[i] == i
    {
      assert rows[i] == fit[i];
      var k := SaveStep.IndexOf(fit, rows[i]);
      assert k == i;
    }
  }

  /** The covariance id of every other row is 255. */
  lemma LegacyOtherCovarIds(res: SaveStep.FitResults)
    requires LegacyStellarParams(res).Ok?
    ensures var t := LegacyStellarParams(res).value; forall i :: |res.paramsFree| < i < |t.covarId| ==> t.covarId[i] == 255
  {
    var t := LegacyStellarParams(res).value;
    var rows := AllNames(res);
    var fit := FitNames(res);
    var nf := |res.paramsFree|;
    var others := Others(SaveStep.Keys(res.paramsFit), fit);
    assert rows == fit + others;
    forall i | nf < i < |t.covarId|
      ensures t.covarId[i] == 255
    {
      assert t.covarId[i] == LegacyCovarId(fit, rows[i]);
      assert rows[i] == others[i - nf - 1];
      NotFitted(fit, rows[i]);
    }
  }

  /**
   * `__read_spectra` for one arm: for every visit the spectrum read, or
   * None where the visit lacks the arm or no pixel falls within the arm's
   * wavelength limits.
   */
  function Extract(singles: map<int, Single>, a: char, read: (int, char) -> Spectrum, inRange: (int, char) -> bool)
    : (m: map<int, Option<Spectrum>>)
    ensures m.Keys == singles.Keys
    ensures forall v :: v in m ==> (m[v].Some? <==> a in singles[v].arms && inRange(v, a))
    ensures forall v :: v in m && m[v].Some? ==> m[v].value == read(v, a)
  {
    map v | v in singles :: if a in singles[v].arms && inRange(v, a) then Some(read(v, a)) else None
  }

  /**
   * `__read_spectra`: the spectra of the given arms, each read from the
   * files of all visits. Every visit looks up each arm's wavelength limits
   * in `config.arms` (whose keys are `configArms`), so an arm missing
   * there raises KeyError as soon as there is a visit at all.
   */
  function ReadAll(singles: map<int, Single>, arms: set<char>, configArms: set<char>,
                   read: (int, char) -> Spectrum, inRange: (int, char) -> bool): (r: Result<Spectra>)
    ensures r.Fail? <==> singles != map[] && !(arms <= configArms)
    ensures r.Fail? ==> r.error == KeyError
    ensures r.Ok? ==> r.value.Keys == arms
    ensures r.Ok? ==> forall a :: a in r.value ==> r.value[a] == Extract(singles, a, read, inRange) && r.value[a].Keys == singles.Keys
  {
    if singles != map[] && !(arms <= configArms) then Fail(KeyError)
    else Ok(map a | a in arms :: Extract(singles, a, read, inRange))
  }

  // ---------------------------------------------------------------------
  // `__read_spectra` as written

  /**
   * An arm a visit passes over without raising, as `__read_spectra` is
   * written: the arm is configured (its limits are found in `config.arms`)
   * and no spectrum of it is read. Reading one raises AttributeError,
   * because `__read_spectrum` names a spectrum ID format
   * (`Constants.PFSARM_ID_FORMAT`) that the constants do not define.
   */
  predicate Quiet(s: Single, v: int, a: char, configArms: set<char>, inRange: (int, char) -> bool) {
    a in configArms && !(a in s.arms && inRange(v, a))
  }

  /**
   * One visit of `__read_spectra` as written, the arms taken in `order`,
   * the order in which the set of arms yields them: the first arm that is
   * not quiet raises KeyError when it is unconfigured and AttributeError
   * when its spectrum is read.
   */
  function VisitAsWritten(s: Single, v: int, order: seq<char>, configArms: set<char>, inRange: (int, char) -> bool)
    : (r: Option<Error>)
    ensures r.None? <==> forall i :: 0 <= i < |order| ==> Quiet(s, v, order[i], configArms, inRange)
    ensures r.Some? ==> r.value == KeyError || r.value == AttributeError
    ensures (forall i :: 0 <= i < |order| ==> order[i] in configArms) && r.Some? ==> r.value == AttributeError
  {
    if order == [] then None
    else if order[0] !in configArms then Some(KeyError)
    else if order[0] in s.arms && inRange(v, order[0]) then Some(AttributeError)
    else VisitAsWritten(s, v, order[1..], configArms, inRange)
  }

  /** The visits `vs`, in that order, each as in `VisitAsWritten`: the first error raised. */
  function VisitsAsWritten(singles: map<int, Single>, vs: seq<int>, order: seq<char>, configArms: set<char>,
                           inRange: (int, char) -> bool): (r: Option<Error>)
    requires forall k :: 0 <= k < |vs| ==> vs[k] in singles
    ensures r.None? <==> forall k, i :: 0 <= k < |vs| && 0 <= i < |order| ==> Quiet(singles[vs[k]], vs[k], order[i], configArms, inRange)
    ensures r.Some? ==> r.value == KeyError || r.value == AttributeError
    ensures (forall i :: 0 <= i < |order| ==> order[i] in configArms) && r.Some? ==> r.value == AttributeError
  {
    if vs == [] then None
    else
      var e := VisitAsWritten(singles[vs[0]], vs[0], order, configArms, inRange);
      if e.Some? then e else VisitsAsWritten(singles, vs[1..], order, configArms, inRange)
  }

  /**
   * `__read_spectra` as written (ga1dpipeline.py:451-479 with the read at
   * :492): the visits in ascending order, the arms of each in `order`. It
   * returns only when no visit reads any spectrum, and then every cell is
   * None.
   */
  function ReadAllAsWritten(singles: map<int, Single>, order: seq<char>, configArms: set<char>,
                            inRange: (int, char) -> bool): (r: Result<Spectra>)
    ensures r.Fail? ==> r.error == KeyError || r.error == AttributeError
    ensures r.Ok? ==> r.value.Keys == (set i | 0 <= i < |order| :: order[i])
    ensures r.Ok? ==> forall a, v :: a in r.value && v in r.value[a] ==> r.value[a][v].None?
  {
    var e := VisitsAsWritten(singles, Ascend(singles.Keys), order, configArms, inRange);
    if e.Some? then Fail(e.value)
    else Ok(map a | a in order :: map v | v in singles :: None)
  }

  /**
   * The as-written read fails exactly when some visit has an arm that is
   * unconfigured or whose spectrum is read.
   */
  lemma ReadAllAsWrittenFails(singles: map<int, Single>, order: seq<char>, configArms: set<char>,
                              inRange: (int, char) -> bool)
    ensures ReadAllAsWritten(singles, order, configArms, inRange).Fail?
        <==> exists v, a :: v in singles && a in order && !Quiet(singles[v], v, a, configArms, inRange)
  {
    var vs := Ascend(singles.Keys);
    if exists v, a :: v in singles && a in order && !Quiet(singles[v], v, a, configArms, inRange) {
      var v, a :| v in singles && a in order && !Quiet(singles[v], v, a, configArms, inRange);
      AscendHas(singles.Keys, v);
      var k :| 0 <= k < |vs| && vs[k] == v;
      var i :| 0 <= i < |order| && order[i] == a;
      assert !Quiet(singles[vs[k]], vs[k], order[i], configArms, inRange);
    } else {
      forall k, i | 0 <= k < |vs| && 0 <= i < |order|
        ensures Quiet(singles[vs[k]], vs[k], order[i], configArms, inRange)
      {
        assert vs[k] in singles && order[i] in order;
      }
    }
  }

  /**
   * The defect: with every arm configured, one visit that observes an arm
   * whose pixels fall within its limits makes the as-written read raise
   * AttributeError, where the intended read returns that spectrum.
   */
  lemma SpectrumReadRaises(singles: map<int, Single>, order: seq<char>, configArms: set<char>,
                           read: (int, char) -> Spectrum, inRange: (int, char) -> bool, v: int, a: char)
    requires forall i :: 0 <= i < |order| ==> order[i] in configArms
    requires v in singles && a in order && a in singles[v].arms && inRange(v, a)
    ensures ReadAllAsWritten(singles, order, configArms, inRange) == Fail(AttributeError)
    ensures var r := ReadAll(singles, set i | 0 <= i < |order| :: order[i], configArms, read, inRange);
            r.Ok? && a in r.value && r.value[a][v] == Some(read(v, a))
  {
    ReadAllAsWrittenFails(singles, order, configArms, inRange);
    assert !Quiet(singles[v], v, a, configArms, inRange);
    var arms := set i | 0 <= i < |order| :: order[i];
    assert arms <= configArms;
    var i :| 0 <= i < |order| && order[i] == a;
    assert a in arms;
  }

  // ---------------------------------------------------------------------
  // The pipeline's state

  /** The attributes of the legacy pipeline the modelled steps read and set. */
  class Pipeline1d {
    /** `__pfsSingle`: the loaded files by visit. */
    var singles: map<int, Single>
    /** `__spectra`: arm, then visit, to the spectrum read (None where there is none). */
    var spectra: Spectra
    /** `__rvfit_arms`. */
    var rvfitArms: set<char>
    /** `__rvfit_grids`: for each arm, the position in `gridFiles` of its grid. */
    var grids: map<char, nat>
    /** The grid files loaded, in load order. */
    var gridFiles: seq<string>
    /** `__rvfit_spectra`. */
    var rvfitSpectra: map<char, seq<Option<Spectrum>>>
    /** `__stacking_results`: the spectra of each stacked arm, None for an arm without any. */
    var stackingResults: map<char, Option<seq<Spectrum>>>

    /** A pipeline over files already loaded. */
    constructor (ss: map<int, Single>)
      ensures singles == ss && spectra == map[] && rvfitArms == {} && grids == map[] && gridFiles == []
      ensures rvfitSpectra == map[] && stackingResults == map[]
    {
      singles, spectra, rvfitArms, grids, gridFiles := ss, map[], {}, map[], [];
      rvfitSpectra, stackingResults := map[], map[];
    }

    /** The arm letters of all loaded files. */
    function AvailArms(): set<char>
      reads this
    {
      set v, c | v in singles && c in singles[v].arms :: c
    }

    /** Every file valid and all targets the same. */
    predicate Consistent(catId: int, objId: int)
      reads this
    {
      (forall v :: v in singles ==> SingleValid(v, singles[v], catId, objId)) &&
      (forall v, w :: v in singles && w in singles ==> singles[v].target == singles[w].target)
    }

    /** `__spectra` as `__step_load` leaves it: an entry for every available arm and every visit. */
    predicate Loaded()
      reads this
    {
      spectra.Keys == AvailArms() && forall a :: a in spectra ==> spectra[a].Keys == singles.Keys
    }

    /**
     * `__step_load_validate`: PipelineError for an invalid file, a target
     * differing from another file's, or, when RV fitting with all arms
     * required, a fit arm without spectra; a missing arm otherwise only warns.
     */
    method LoadValidate(catId: int, objId: int, runRvfit: bool, fitArms: seq<char>, requireAll: bool) returns (r: Runner.Call)
      ensures r == Runner.Done <==>
        Consistent(catId, objId) && (runRvfit && requireAll ==> forall a :: a in fitArms ==> a in spectra)
      ensures r != Runner.Done ==> r == Runner.Raised(PipelineError)
    {
      var todo := singles.Keys;
      var target: Option<Target> := None;
      ghost var first: int := 0;
      while exists v :: v in todo
        invariant todo <= singles.Keys
        invariant forall v :: v in singles && v !in todo ==> SingleValid(v, singles[v], catId, objId)
        invariant target.None? ==> todo == singles.Keys
        invariant target.Some? ==> first in singles && target.value == singles[first].target
        invariant target.Some? ==> forall v :: v in singles && v !in todo ==> singles[v].target == target.value
        decreases |todo|
      {
        var v :| v in todo;
        if !SingleValid(v, singles[v], catId, objId) {
          return Runner.Raised(PipelineError);
        }
        if target.None? {
          target := Some(singles[v].target);
          first := v;
        } else if target.value != singles[v].target {
          return Runner.Raised(PipelineError);
        }
        todo := todo - {v};
      }
      assert Consistent(catId, objId);
      if runRvfit {
        var i := 0;
        while i < |fitArms|
          invariant 0 <= i <= |fitArms|
          invariant requireAll ==> forall j :: 0 <= j < i ==> fitArms[j] in spectra
        {
          if requireAll && fitArms[i] !in spectra {
            return Runner.Raised(PipelineError);
          }
          i := i + 1;
        }
      }
      return Runner.Done;
    }

    /** `__get_avail_arms`: the union of the arm letters of all loaded files. */
    method GetAvailArms() returns (arms: set<char>)
      ensures arms == AvailArms()
    {
      arms := {};
      var todo := singles.Keys;
      while exists v :: v in todo
        invariant todo <= singles.Keys
        invariant forall c :: c in arms <==> exists v :: v in singles && v !in todo && c in singles[v].arms
        decreases |todo|
      {
        var v :| v in todo;
        arms := AddLetters(arms, singles[v].arms);
        todo := todo - {v};
      }
      forall c
        ensures c in arms <==> c in AvailArms()
      {
        if c in arms {
          var v :| v in singles && c in singles[v].arms;
        }
      }
    }

    /**
     * `__step_load` over loaded files: for each available arm and each
     * visit, the spectrum read, or None where the visit lacks the arm or no
     * pixel falls within the arm's wavelength limits. An available arm
     * without limits in `config.arms` raises KeyError and leaves the
     * spectra as they were.
     */
    method StepLoad(configArms: set<char>, read: (int, char) -> Spectrum, inRange: (int, char) -> bool) returns (r: Runner.Call)
      modifies this
      ensures r == Runner.Done <==> AvailArms() <= configArms
      ensures r != Runner.Done ==> r == Runner.Raised(KeyError) && spectra == old(spectra)
      ensures r == Runner.Done ==> Loaded() && spectra == ReadAll(singles, AvailArms(), configArms, read, inRange).value
      ensures singles == old(singles) && rvfitArms == old(rvfitArms) && grids == old(grids) && gridFiles == old(gridFiles)
      ensures rvfitSpectra == old(rvfitSpectra) && stackingResults == old(stackingResults)
    {
      var arms := GetAvailArms();
      var loaded := ReadAll(singles, arms, configArms, read, inRange);
      if loaded.Fail? {
        return Runner.Raised(loaded.error);
      }
      spectra := loaded.value;
      return Runner.Done;
    }

    /**
     * `__rvfit_collect_spectra`: KeyError when an arm has no spectra; else
     * each arm's list over its visits in ascending order.
     */
    method CollectSpectra(useArms: set<char>, sc: Screening) returns (r: Result<map<char, seq<Option<Spectrum>>>>)
      ensures r.Fail? <==> !(useArms <= spectra.Keys)
      ensures r.Fail? ==> r.error == KeyError
      ensures r.Ok? ==> useArms <= spectra.Keys && r.value == Collection(spectra, useArms, sc)
    {
      var out: map<char, seq<Option<Spectrum>>> := map[];
      var todo := useArms;
      while todo != {}
        invariant todo <= useArms
        invariant useArms - todo <= spectra.Keys
        invariant out.Keys <= useArms - todo
        invariant forall a :: a in useArms - todo ==>
          (a in out <==> ArmList(spectra[a], Ascend(spectra[a].Keys), sc) != []) &&
          (a in out ==> out[a] == ArmList(spectra[a], Ascend(spectra[a].Keys), sc))
        decreases todo
      {
        var a :| a in todo;
        if a !in spectra {
          return Fail(KeyError);
        }
        var l := CollectArm(spectra[a], sc);
        if l != [] {
          out := out[a := l];
        }
        todo := todo - {a};
      }
      return Ok(out);
    }

    /**
     * `__step_rvfit`: skips its substeps when RV fitting is off; else the
     * fit arms are the available configured arms and their spectra are
     * collected with nothing skipped.
     */
    method StepRvfit(runRvfit: bool, fitArms: seq<char>, unmasked: Spectrum -> nat, minUnmasked: int) returns (r: Runner.Call)
      modifies this
      ensures singles == old(singles) && spectra == old(spectra) && grids == old(grids) && gridFiles == old(gridFiles)
      ensures stackingResults == old(stackingResults)
      ensures !runRvfit ==> r == Runner.SkipSubsteps && rvfitArms == old(rvfitArms) && rvfitSpectra == old(rvfitSpectra)
      ensures runRvfit ==> rvfitArms == AvailArms() * (set a | a in fitArms)
      ensures runRvfit && !(rvfitArms <= spectra.Keys) ==> r == Runner.Raised(KeyError) && rvfitSpectra == old(rvfitSpectra)
      ensures runRvfit && rvfitArms <= spectra.Keys ==>
        r == Runner.Done && rvfitSpectra == Collection(spectra, rvfitArms, Defaults(unmasked, minUnmasked))
      ensures runRvfit && old(Loaded()) ==> r == Runner.Done
    {
      if !runRvfit {
        return Runner.SkipSubsteps;
      }
      var avail := GetAvailArms();
      rvfitArms := avail * (set a | a in fitArms);
      var c := CollectSpectra(rvfitArms, Defaults(unmasked, minUnmasked));
      if c.Fail? {
        return Runner.Raised(c.error);
      }
      rvfitSpectra := c.value;
      return Runner.Done;
    }

    /** `__step_rvfit_load`: the grids of the fit arms, each distinct file once. */
    method StepRvfitLoad(gp: RvFitStep.GridPath, fmt: RvFitStep.Format) returns (r: Runner.Call)
      modifies this
      ensures singles == old(singles) && spectra == old(spectra) && rvfitArms == old(rvfitArms)
      ensures rvfitSpectra == old(rvfitSpectra) && stackingResults == old(stackingResults)
      ensures RvFitStep.GridMissing(rvfitArms, gp, fmt) ==>
        r == Runner.Raised(KeyError) && grids == old(grids) && gridFiles == old(gridFiles)
      ensures !RvFitStep.GridMissing(rvfitArms, gp, fmt) ==>
        r == Runner.Done && RvFitStep.GridsShared(rvfitArms, gp, fmt, grids, gridFiles)
    {
      var g, files, failure := RvFitStep.LoadGrids(rvfitArms, gp, fmt);
      if failure.Some? {
        return Runner.Raised(failure.value);
      }
      grids, gridFiles := g, files;
      return Runner.Done;
    }

    /**
     * `__step_coadd`: skips the rest when RV fitting or coadding is off;
     * IndexError without files, KeyError when the first visit's file has
     * no NO_DATA flag; else the spectra of the available arms that are
     * both fitted and coadded are collected with nothing skipped, and each
     * arm stacks its spectra.
     */
    method StepCoadd(runRvfit: bool, runCoadd: bool, fitArms: seq<char>, coaddArms: seq<char>,
                     unmasked: Spectrum -> nat, minUnmasked: int) returns (r: Runner.Call)
      modifies this
      ensures singles == old(singles) && spectra == old(spectra) && rvfitArms == old(rvfitArms)
      ensures grids == old(grids) && gridFiles == old(gridFiles) && rvfitSpectra == old(rvfitSpectra)
      ensures !runRvfit || !runCoadd ==> r == Runner.SkipRemaining && stackingResults == old(stackingResults)
      ensures runRvfit && runCoadd && singles.Keys == {} ==> r == Runner.Raised(IndexError) && stackingResults == old(stackingResults)
      ensures runRvfit && runCoadd && (exists v :: v in singles.Keys) && "NO_DATA" !in singles[Least(singles.Keys)].flags ==>
        r == Runner.Raised(KeyError) && stackingResults == old(stackingResults)
      ensures runRvfit && runCoadd && (exists v :: v in singles.Keys) && "NO_DATA" in singles[Least(singles.Keys)].flags ==>
        r == Runner.Done &&
        var c := Collection(spectra, spectra.Keys * (set a | a in fitArms) * (set a | a in coaddArms), Defaults(unmasked, minUnmasked));
        stackingResults.Keys == c.Keys && forall a :: a in c ==> stackingResults[a] == Stack(c[a])
    {
      if !runRvfit || !runCoadd {
        return Runner.SkipRemaining;
      }
      if singles.Keys == {} {
        return Runner.Raised(IndexError);
      }
      var first := Ascend(singles.Keys)[0];
      assert first == Least(singles.Keys) by {
        AscendHas(singles.Keys, Least(singles.Keys));
      }
      if "NO_DATA" !in singles[first].flags {
        return Runner.Raised(KeyError);
      }
      var useArms := spectra.Keys * (set a | a in fitArms) * (set a | a in coaddArms);
      var c := CollectSpectra(useArms, Defaults(unmasked, minUnmasked));
      var collected := c.value;
      stackingResults := map a | a in collected :: Stack(collected[a]);
      return Runner.Done;
    }

    /** `__get_velocity_corrections`: one zero entry per visit, visits ascending. */
    function VelocityCorrections(): (v: SaveStep.VelocityCorrections)
      reads this
      ensures StrictlyAscending(v.visit) && |v.visit| == |singles.Keys|
      ensures |v.jd| == |v.visit| && |v.helio| == |v.visit| && |v.bary| == |v.visit|
      ensures forall k :: 0 <= k < |v.visit| ==> v.visit[k] in singles && v.jd[k] == 0.0 && v.helio[k] == 0.0 && v.bary[k] == 0.0
    {
      SaveStep.GetVelocityCorrections(Ascend(singles.Keys))
    }
  }

  /**
   * After loading, with at least one file, every arm the coadd step uses
   * gets a list, since nothing is skipped and each arm has an entry for
   * every visit.
   */
  lemma EveryUsedArmCollected(p: Pipeline1d, arms: set<char>, unmasked: Spectrum -> nat, minUnmasked: int)
    requires p.Loaded() && p.singles.Keys != {} && arms <= p.spectra.Keys
    ensures Collection(p.spectra, arms, Defaults(unmasked, minUnmasked)).Keys == arms
    ensures forall a :: a in arms ==> |Collection(p.spectra, arms, Defaults(unmasked, minUnmasked))[a]| == |p.singles.Keys|
  {
    var sc := Defaults(unmasked, minUnmasked);
    forall a | a in arms
      ensures |ArmList(p.spectra[a], Ascend(p.spectra[a].Keys), sc)| == |p.singles.Keys|
    {
      ArmListDefaults(p.spectra[a], Ascend(p.spectra[a].Keys), sc);
    }
  }

  /**
   * The legacy pipeline also validates the arms: after loading, with all
   * arms required, validation fails exactly when a fit arm is observed in
   * no visit (given consistent files).
   */
  lemma ValidationArmsObserved(p: Pipeline1d, fitArms: seq<char>)
    requires p.Loaded()
    ensures (forall a :: a in fitArms ==> a in p.spectra) <==>
      forall a :: a in fitArms ==> exists v :: v in p.singles && a in p.singles[v].arms
  {
  }
}
