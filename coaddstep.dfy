/**
 * The coadd step (gapipe/steps/coaddstep.py): which fitted arms are
 * stacked, the extra mask flags merged into their spectra, the spectrum
 * whose mask flags stand for all, and one stacked spectrum per arm.
 *
 * A spectrum is its `GaPipeline.Spectrum` value with its mask-flag table;
 * a stacked spectrum is represented by the list of spectra it stacks. The
 * stacking numerics, the merged spectrum and the metadata are not modelled.
 */
module CoaddStep {
  import opened Wrappers
  import opened GaPipeline
  import RvFitStep
  import Runner

  /** A mask-flag table: flag bit to flag name. */
  type Flags = map<int, string>

  /** A spectrum with its mask flags, the attribute of a spectrum this step changes. */
  datatype Flagged = Flagged(spectrum: Spectrum, flags: Flags)

  /** Spectra by arm, None where a spectrum is missing. */
  type Input = map<char, seq<Option<Flagged>>>

  /** One list of the RV-fit spectra with their mask flags. */
  function Tagged(l: seq<Option<Spectrum>>, tag: Spectrum -> Flags): (r: seq<Option<Flagged>>)
    ensures |r| == |l|
    ensures forall i :: 0 <= i < |l| ==> (r[i].Some? <==> l[i].Some?)
  {
    seq(|l|, i requires 0 <= i < |l| => if l[i].None? then None else Some(Flagged(l[i].value, tag(l[i].value))))
  }

  /** `input_spectra`: the lists of the coadd arms. */
  function Selected(arms: set<char>, fitted: RvFitStep.Lists, tag: Spectrum -> Flags): (m: Input)
    requires arms <= fitted.Keys
    ensures m.Keys == arms
  {
    map a | a in arms :: Tagged(fitted[a], tag)
  }

  /** Some list holds a spectrum. */
  predicate HasFlagged(m: Input) {
    exists a, i :: a in m && 0 <= i < |m[a]| && m[a][i].Some?
  }

  /**
   * `r` is `l` with the extra flags merged into every spectrum's table, an
   * extra flag replacing a flag of the same bit; missing spectra stay
   * missing.
   */
  predicate Extended(l: seq<Option<Flagged>>, r: seq<Option<Flagged>>, extra: Flags) {
    |r| == |l| &&
    forall i :: 0 <= i < |l| ==>
      (l[i].None? ==> r[i].None?) &&
      (l[i].Some? ==>
         r[i].Some? && r[i].value.spectrum == l[i].value.spectrum &&
         r[i].value.flags.Keys == l[i].value.flags.Keys + extra.Keys &&
         (forall b :: b in extra ==> r[i].value.flags[b] == extra[b]) &&
         (forall b :: b in l[i].value.flags && b !in extra ==> r[i].value.flags[b] == l[i].value.flags[b]))
  }

  /** Every list of `m` extended by the extra flags. */
  predicate ExtendedAll(m: Input, input: Input, extra: Flags) {
    input.Keys == m.Keys && forall a :: a in m ==> Extended(m[a], input[a], extra)
  }

  /** `mask_flags.update(extra)` on the spectra of one list. */
  method ExtendList(l: seq<Option<Flagged>>, extra: Flags) returns (r: seq<Option<Flagged>>)
    ensures Extended(l, r, extra)
  {
    r := [];
    var i := 0;
    while i < |l|
      invariant 0 <= i <= |l|
      invariant Extended(l[..i], r, extra)
    {
      var s := l[i];
      if s.Some? {
        r := r + [Some(Flagged(s.value.spectrum, s.value.flags + extra))];
      } else {
        r := r + [None];
      }
      assert l[..i + 1][..i] == l[..i];
      i := i + 1;
    }
    assert l[..i] == l;
  }

  /** `__add_extra_mask_flags`: every list of `m`, extended. */
  method AddExtraFlags(m: Input, extra: Flags) returns (out: Input)
    ensures ExtendedAll(m, out, extra)
  {
    out := map[];
    var todo := m.Keys;
    while todo != {}
      invariant todo <= m.Keys
      invariant out.Keys == m.Keys - todo
      invariant forall a :: a in out ==> Extended(m[a], out[a], extra)
      decreases todo
    {
      var a :| a in todo;
      var r := ExtendList(m[a], extra);
      out := out[a := r];
      todo := todo - {a};
    }
  }

  /** Extending keeps exactly the positions of the spectra. */
  lemma ExtendedHas(m: Input, out: Input, extra: Flags)
    requires ExtendedAll(m, out, extra)
    ensures HasFlagged(out) <==> HasFlagged(m)
  {
    if HasFlagged(m) {
      var a, i :| a in m && 0 <= i < |m[a]| && m[a][i].Some?;
      assert out[a][i].Some?;
    }
    if HasFlagged(out) {
      var a, i :| a in out && 0 <= i < |out[a]| && out[a][i].Some?;
      assert m[a][i].Some?;
    }
  }

  /**
   * `__get_mask_flags`: the first spectrum met, whose mask flags stand for
   * all; None when there is none.
   */
  method FirstFlagged(m: Input) returns (s: Option<Flagged>)
    ensures s.Some? ==> exists a, i :: a in m && 0 <= i < |m[a]| && m[a][i] == s
    ensures s.None? <==> !HasFlagged(m)
  {
    var todo := m.Keys;
    while todo != {}
      invariant todo <= m.Keys
      invariant forall a, i :: a in m && a !in todo && 0 <= i < |m[a]| ==> m[a][i].None?
      decreases todo
    {
      var a :| a in todo;
      var i := 0;
      while i < |m[a]|
        invariant 0 <= i <= |m[a]|
        invariant forall j :: 0 <= j < i ==> m[a][j].None?
      {
        if m[a][i].Some? {
          return m[a][i];
        }
        i := i + 1;
      }
      todo := todo - {a};
    }
    return None;
  }

  /** The spectra of one list. */
  function Present(l: seq<Option<Flagged>>): (r: seq<Flagged>)
    ensures |r| <= |l|
    ensures forall s :: s in r <==> Some(s) in l
  {
    if l == [] then []
    else (if l[0].Some? then [l[0].value] else []) + Present(l[1..])
  }

  /**
   * `__stack_spectra`: a stacker for every coadd arm with input, each
   * arm's result a one-element list, the stack of its spectra.
   */
  method StackArms(arms: set<char>, m: Input) returns (stacked: map<char, seq<seq<Flagged>>>)
    ensures stacked.Keys == arms * m.Keys
    ensures forall a :: a in stacked ==> stacked[a] == [Present(m[a])]
  {
    stacked := map[];
    var todo := arms;
    while todo != {}
      invariant todo <= arms
      invariant stacked.Keys == (arms - todo) * m.Keys
      invariant forall a :: a in stacked ==> stacked[a] == [Present(m[a])]
      decreases todo
    {
      var a :| a in todo;
      if a in m {
        stacked := stacked[a := [Present(m[a])]];
      }
      todo := todo - {a};
    }
  }

  /** The flags come from a spectrum of `input`, and each arm is stacked from its spectra. */
  predicate StackedFrom(input: Input, flags: Flags, stacked: map<char, seq<seq<Flagged>>>) {
    (exists a, i :: a in input && 0 <= i < |input[a]| && input[a][i].Some? && input[a][i].value.flags == flags) &&
    stacked.Keys == input.Keys && forall a :: a in input ==> stacked[a] == [Present(input[a])]
  }

  /** What `run` leaves behind once the coadd arms have been selected. */
  predicate Stacked(m: Input, extra: Flags, r: Runner.Call, input: Input,
                    maskFlags: Option<Flags>, stacked: map<char, seq<seq<Flagged>>>,
                    maskFlags0: Option<Flags>, stacked0: map<char, seq<seq<Flagged>>>) {
    ExtendedAll(m, input, extra) &&
    (!HasFlagged(m) ==> r == Runner.Raised(TypeError) && maskFlags == maskFlags0 && stacked == stacked0) &&
    (HasFlagged(m) ==> r == Runner.Done && maskFlags.Some? && StackedFrom(input, maskFlags.value, stacked))
  }

  /** Stacks over every arm of `input`, with the flags of one of its spectra. */
  lemma StacksAll(input: Input, arms: set<char>, first: Flagged, stacked: map<char, seq<seq<Flagged>>>)
    requires exists a, i :: a in input && 0 <= i < |input[a]| && input[a][i] == Some(first)
    requires input.Keys == arms && stacked.Keys == arms * input.Keys
    requires forall a :: a in stacked ==> stacked[a] == [Present(input[a])]
    ensures StackedFrom(input, first.flags, stacked)
  {
    assert arms * input.Keys == input.Keys;
  }

  /** What `run` computes, once the coadd arms are known to have been fitted. */
  lemma RunOutcome(m: Input, arms: set<char>, extra: Flags, r: Runner.Call, input: Input, first: Option<Flagged>,
                   maskFlags: Option<Flags>, stacked: map<char, seq<seq<Flagged>>>,
                   maskFlags0: Option<Flags>, stacked0: map<char, seq<seq<Flagged>>>)
    requires m.Keys == arms && ExtendedAll(m, input, extra)
    requires first.Some? ==> exists a, i :: a in input && 0 <= i < |input[a]| && input[a][i] == first
    requires first.None? <==> !HasFlagged(input)
    requires first.None? ==> r == Runner.Raised(TypeError) && maskFlags == maskFlags0 && stacked == stacked0
    requires first.Some? ==> r == Runner.Done && maskFlags == Some(first.value.flags)
    requires first.Some? ==> stacked.Keys == arms * input.Keys && forall a :: a in stacked ==> stacked[a] == [Present(input[a])]
    ensures Stacked(m, extra, r, input, maskFlags, stacked, maskFlags0, stacked0)
  {
    ExtendedHas(m, input, extra);
    if first.Some? {
      StacksAll(input, arms, first.value, stacked);
    }
  }

  /** The attributes of the step's state. */
  class CoaddState {
    /** `coadd_arms`. */
    var arms: set<char>
    /** `input_spectra`, with the extra flags merged. */
    var input: Input
    /** The mask flags taken to stand for all spectra. */
    var maskFlags: Option<Flags>
    /** `coadd_spectra`: one stacked spectrum per arm. */
    var stacked: map<char, seq<seq<Flagged>>>

    /** Nothing stacked yet. */
    constructor ()
      ensures arms == {} && input == map[] && maskFlags.None? && stacked == map[]
    {
      arms, input, maskFlags, stacked := {}, map[], None, map[];
    }

    /**
     * `init`: skips the rest when RV fitting or coadding is off; else the
     * coadd arms are the configured coadd arms that were RV-fitted.
     */
    method Init(runRvfit: bool, runCoadd: bool, coaddArms: seq<char>, fitted: set<char>) returns (r: Runner.Call)
      modifies this
      ensures input == old(input) && maskFlags == old(maskFlags) && stacked == old(stacked)
      ensures !runRvfit || !runCoadd ==> r == Runner.SkipRemaining && arms == old(arms)
      ensures runRvfit && runCoadd ==> r == Runner.Done && forall a :: a in arms <==> a in coaddArms && a in fitted
    {
      if !runRvfit || !runCoadd {
        return Runner.SkipRemaining;
      }
      arms := (set a | a in coaddArms) * fitted;
      return Runner.Done;
    }

    /**
     * `run`: the lists of the coadd arms get the extra flags; with no
     * spectrum at all the mask flag lookup returns None and its unpacking
     * raises TypeError; else one stack per arm.
     */
    method Run(fitted: RvFitStep.Lists, tag: Spectrum -> Flags, extra: Flags) returns (r: Runner.Call)
      modifies this
      ensures arms == old(arms)
      ensures !(arms <= fitted.Keys) ==>
        r == Runner.Raised(KeyError) && input == old(input) && maskFlags == old(maskFlags) && stacked == old(stacked)
      ensures arms <= fitted.Keys ==>
        Stacked(Selected(arms, fitted, tag), extra, r, input, maskFlags, stacked, old(maskFlags), old(stacked))
    {
      if !(arms <= fitted.Keys) {
        return Runner.Raised(KeyError);
      }
      var m := Selected(arms, fitted, tag);
      var extended := AddExtraFlags(m, extra);
      var first := FirstFlagged(extended);
      var flags, st := maskFlags, stacked;
      if first.None? {
        r := Runner.Raised(TypeError);
      } else {
        st := StackArms(arms, extended);
        flags := Some(first.value.flags);
        r := Runner.Done;
      }
      RunOutcome(m, arms, extra, r, extended, first, flags, st, maskFlags, stacked);
      input, maskFlags, stacked := extended, flags, st;
    }
  }

  /**
   * After a collection that went through and an `init` that selected the
   * coadd arms, `run` finds a spectrum exactly when some arm was selected.
   */
  lemma RunFindsSpectrum(input: GaPipeline.Spectra, use: set<char>, visits: seq<int>, sc: RvFitStep.Screening,
                         arms: set<char>, tag: Spectrum -> Flags)
    requires RvFitStep.Collected(input, use, visits, sc).Ok?
    requires arms <= RvFitStep.Collected(input, use, visits, sc).value.Keys
    ensures HasFlagged(Selected(arms, RvFitStep.Collected(input, use, visits, sc).value, tag)) <==> arms != {}
  {
    var l: RvFitStep.Lists := RvFitStep.Collected(input, use, visits, sc).value;
    if a: char :| a in arms {
      RvFitStep.KeptArmHasSpectrum(input, use, visits, sc, a);
      var k: int :| 0 <= k < |l[a]| && l[a][k].Some?;
      assert Selected(arms, l, tag)[a][k].Some?;
    }
  }
}
