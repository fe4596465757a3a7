/**
 * The stellar-parameter priors the configure script writes into a
 * per-object copy of `tempfit_args`
 * (scripts/configure/configurescript.py, the `__configure_tempfit_stellar_param_priors`
 * function). For each of M_H, T_eff, log_g, a_M and rv the stellar
 * parameter table row may give a constant, a lower and an upper limit,
 * and a prior distribution.
 *
 * Floating-point values are not interpreted: a table cell or list element
 * is an `Item`, and only the distinctions the code makes (None, NaN,
 * text, anything else) matter.
 */
module Priors {
  import opened Wrappers

  /** A table cell or a `tempfit_args` list element. */
  datatype Item = NoneItem | Real(x: real) | NegInf | PosInf | NaN | Word(s: string)

  /** A `tempfit_args` value: a scalar (None included) or a list. */
  datatype Arg = Scalar(item: Item) | Items(items: seq<Item>)

  type Args = map<string, Arg>

  /** One row of the stellar parameter table, by column name. */
  type Row = map<string, Item>

  /** The parameters whose priors are configured, in this order. */
  const PriorNames: seq<string> := ["M_H", "T_eff", "log_g", "a_M", "rv"]

  function MinKey(k: string): string { k + "_min" }
  function MaxKey(k: string): string { k + "_max" }
  function DistKey(k: string): string { k + "_dist" }
  function MeanKey(k: string): string { k + "_dist_mean" }
  function SigmaKey(k: string): string { k + "_dist_sigma" }

  /** `k in args and args[k] is not None`. */
  predicate Present(args: Args, k: string) {
    k in args && args[k] != Scalar(NoneItem)
  }

  /**
   * `k in pp and pp[k] is not None and not np.isnan(pp[k])`: `np.isnan`
   * of a text cell raises TypeError.
   */
  function Given(pp: Row, k: string): (r: Result<bool>)
    ensures r.Fail? <==> k in pp && pp[k].Word?
    ensures r.Fail? ==> r.error == TypeError
    ensures r == Ok(true) <==> k in pp && !pp[k].NoneItem? && !pp[k].NaN? && !pp[k].Word?
  {
    if k !in pp || pp[k] == NoneItem then Ok(false)
    else if pp[k].Word? then Fail(TypeError)
    else Ok(!pp[k].NaN?)
  }

  /**
   * `values[end] = x`, where a value that is not a list is first replaced
   * by `[-inf, inf]`; a list too short for the index raises IndexError.
   */
  function SetEnd(values: Option<Arg>, end: nat, x: Item): (r: Result<Option<Arg>>)
    requires end < 2
    ensures r.Fail? <==> values.Some? && values.value.Items? && end >= |values.value.items|
    ensures r.Fail? ==> r.error == IndexError
    ensures r.Ok? ==> r.value.Some? && r.value.value.Items? && end < |r.value.value.items| && r.value.value.items[end] == x
    ensures r.Ok? && values.Some? && values.value.Items? ==> r.value.value.items == values.value.items[end := x]
    ensures r.Ok? && !(values.Some? && values.value.Items?) ==> r.value.value.items == [NegInf, PosInf][end := x]
  {
    var list := if values.Some? && values.value.Items? then values.value.items else [NegInf, PosInf];
    if end < |list| then Ok(Some(Items(list[end := x]))) else Fail(IndexError)
  }

  /** The limits part: a constant overrides, otherwise min and max replace one end each. */
  function Limits(values: Option<Arg>, pp: Row, k: string): (r: Result<Option<Arg>>)
  {
    match Given(pp, k)
    case Fail(e) => Fail(e)
    case Ok(constant) =>
      if constant then Ok(Some(Scalar(pp[k])))
      else
        match Given(pp, MinKey(k))
        case Fail(e) => Fail(e)
        case Ok(lo) =>
          var v1 := if lo then SetEnd(values, 0, pp[MinKey(k)]) else Ok(values);
          if v1.Fail? then v1
          else
            match Given(pp, MaxKey(k))
            case Fail(e) => Fail(e)
            case Ok(hi) => if hi then SetEnd(v1.value, 1, pp[MaxKey(k)]) else v1
  }

  /**
   * The template's distribution entry: nothing when it is missing or None,
   * `[dist] + dist_args` when it is a list, and the exception that
   * indexing a scalar or an empty list raises. A list whose first element
   * is None is not written back.
   */
  function TemplateDistribution(args: Args, k: string): (r: Result<Option<seq<Item>>>)
    ensures !Present(args, DistKey(k)) ==> r == Ok(None)
    ensures r.Ok? && r.value.Some? ==> args[DistKey(k)] == Items(r.value.value)
    ensures Present(args, DistKey(k)) && args[DistKey(k)].Scalar? ==> r == Fail(TypeError)
    ensures Present(args, DistKey(k)) && args[DistKey(k)] == Items([]) ==> r == Fail(IndexError)
  {
    var kd := DistKey(k);
    if !Present(args, kd) then Ok(None)
    else match args[kd]
      case Scalar(_) => Fail(TypeError)
      case Items(its) => if its == [] then Fail(IndexError) else Ok(if its[0] == NoneItem then None else Some(its))
  }

  /**
   * The distribution part: the template's entry unless the table names a
   * distribution. `None` means nothing is written.
   */
  function Distribution(args: Args, pp: Row, k: string): (r: Result<Option<seq<Item>>>)
  {
    var kd := DistKey(k);
    var current := TemplateDistribution(args, k);
    if current.Fail? then current
    else if kd in pp && pp[kd] != NoneItem then
      if pp[kd] == Word("uniform") then Ok(Some([Word("uniform")]))
      else if pp[kd] == Word("normal") then
        if MeanKey(k) !in pp || SigmaKey(k) !in pp then Fail(KeyError)
        else Ok(Some([Word("normal"), pp[MeanKey(k)], pp[SigmaKey(k)]]))
      else Fail(NotImplementedError)
    else current
  }

  /** One iteration of the loop: the limits of `k`, then its distribution. */
  function PriorStep(args: Args, pp: Row, k: string): (r: Result<Args>)
  {
    var values := if Present(args, k) then Some(args[k]) else None;
    match Limits(values, pp, k)
    case Fail(e) => Fail(e)
    case Ok(v) =>
      var args1 := if v.Some? then args[k := v.value] else args;
      match Distribution(args1, pp, k)
      case Fail(e) => Fail(e)
      case Ok(d) => Ok(if d.Some? then args1[DistKey(k) := Items(d.value)] else args1)
  }

  /** The loop over `names`, stopping at the first exception. */
  function PriorSteps(args: Args, pp: Row, names: seq<string>): (r: Result<Args>)
    decreases |names|
  {
    if names == [] then Ok(args)
    else
      var r0 := PriorSteps(args, pp, names[..|names| - 1]);
      if r0.Fail? then r0 else PriorStep(r0.value, pp, names[|names| - 1])
  }

  /** The whole function over the five parameters. */
  function ConfigurePriors(args: Args, pp: Row): Result<Args> {
    PriorSteps(args, pp, PriorNames)
  }

  /** One more name runs one more step, unless an earlier one raised. */
  lemma PriorStepsSnoc(args: Args, pp: Row, names: seq<string>, n: nat)
    requires n < |names|
    ensures var r0 := PriorSteps(args, pp, names[..n]);
      PriorSteps(args, pp, names[..n + 1]) == if r0.Fail? then r0 else PriorStep(r0.value, pp, names[n])
  {
    assert names[..n + 1][..n] == names[..n];
  }

  /** Once a step raises, the rest of the loop does not run. */
  lemma {:induction false} PriorStepsFailureSticks(args: Args, pp: Row, names: seq<string>, m: nat)
    requires m <= |names| && PriorSteps(args, pp, names[..m]).Fail?
    ensures PriorSteps(args, pp, names) == PriorSteps(args, pp, names[..m])
    decreases |names|
  {
    if m < |names| {
      var init := names[..|names| - 1];
      assert init[..m] == names[..m];
      PriorStepsFailureSticks(args, pp, init, m);
    } else {
      assert names[..m] == names;
    }
  }

  // ---------------------------------------------------------------------
  // What one step does

  lemma DistKeyDiffers(k: string)
    ensures DistKey(k) != k
  {
    assert |DistKey(k)| == |k| + 5;
  }

  /** A step changes `k` and `k_dist` and no other entry. */
  lemma PriorStepFrame(args: Args, pp: Row, k: string, j: string)
    requires PriorStep(args, pp, k).Ok? && j != k && j != DistKey(k)
    ensures j in PriorStep(args, pp, k).value <==> j in args
    ensures j in args ==> PriorStep(args, pp, k).value[j] == args[j]
  {
  }

  /** A usable constant in the table replaces the parameter, whatever the template holds. */
  lemma ConstantOverrides(args: Args, pp: Row, k: string)
    requires Given(pp, k) == Ok(true) && PriorStep(args, pp, k).Ok?
    ensures PriorStep(args, pp, k).value[k] == Scalar(pp[k])
  {
    DistKeyDiffers(k);
  }

  /**
   * Without a constant, a template list keeps its elements except the
   * ends the table gives; a template value that is not a list starts
   * from `[-inf, inf]`.
   */
  lemma LimitsReplaceEnds(args: Args, pp: Row, k: string)
    requires Given(pp, k) == Ok(false) && PriorStep(args, pp, k).Ok?
    requires Given(pp, MinKey(k)) == Ok(true) || Given(pp, MaxKey(k)) == Ok(true)
    ensures var base := if Present(args, k) && args[k].Items? then args[k].items else [NegInf, PosInf];
      var lo := if Given(pp, MinKey(k)) == Ok(true) then base[0 := pp[MinKey(k)]] else base;
      PriorStep(args, pp, k).value[k] == Items(if Given(pp, MaxKey(k)) == Ok(true) then lo[1 := pp[MaxKey(k)]] else lo)
  {
    DistKeyDiffers(k);
  }

  /** With neither a constant nor a limit, the template value stays as it was. */
  lemma NoPriorKeepsValue(args: Args, pp: Row, k: string)
    requires Given(pp, k) == Ok(false) && Given(pp, MinKey(k)) == Ok(false) && Given(pp, MaxKey(k)) == Ok(false)
    requires PriorStep(args, pp, k).Ok?
    ensures k in PriorStep(args, pp, k).value <==> k in args
    ensures k in args ==> PriorStep(args, pp, k).value[k] == args[k]
  {
    DistKeyDiffers(k);
  }

  /** A list too short for the limit it receives raises IndexError. */
  lemma ShortListRaises(args: Args, pp: Row, k: string)
    requires Given(pp, k) == Ok(false) && Given(pp, MinKey(k)) == Ok(false) && Given(pp, MaxKey(k)) == Ok(true)
    requires Present(args, k) && args[k].Items? && |args[k].items| < 2
    ensures PriorStep(args, pp, k) == Fail(IndexError)
  {
  }

  /** The table's distribution: `uniform`, `normal` with its mean and sigma, anything else raises. */
  lemma DistributionRules(args: Args, pp: Row, k: string)
    requires TemplateDistribution(args, k).Ok?
    requires Limits(if Present(args, k) then Some(args[k]) else None, pp, k).Ok?
    requires DistKey(k) in pp && pp[DistKey(k)] != NoneItem
    ensures pp[DistKey(k)] == Word("uniform") ==>
      PriorStep(args, pp, k).Ok? && PriorStep(args, pp, k).value[DistKey(k)] == Items([Word("uniform")])
    ensures pp[DistKey(k)] == Word("normal") ==>
      if MeanKey(k) in pp && SigmaKey(k) in pp
      then PriorStep(args, pp, k).Ok? &&
        PriorStep(args, pp, k).value[DistKey(k)] == Items([Word("normal"), pp[MeanKey(k)], pp[SigmaKey(k)]])
      else PriorStep(args, pp, k) == Fail(KeyError)
    ensures pp[DistKey(k)] != Word("uniform") && pp[DistKey(k)] != Word("normal") ==>
      PriorStep(args, pp, k) == Fail(NotImplementedError)
  {
    DistKeyDiffers(k);
    if Limits(if Present(args, k) then Some(args[k]) else None, pp, k).value.Some? {
      TemplateFrame(args, k, Limits(if Present(args, k) then Some(args[k]) else None, pp, k).value.value);
    }
  }

  /** Without a distribution in the table, a template list led by a value is written back unchanged. */
  lemma TemplateDistributionKept(args: Args, pp: Row, k: string)
    requires Limits(if Present(args, k) then Some(args[k]) else None, pp, k).Ok?
    requires DistKey(k) !in pp || pp[DistKey(k)] == NoneItem
    requires Present(args, DistKey(k)) && args[DistKey(k)].Items?
    requires args[DistKey(k)].items != [] && args[DistKey(k)].items[0] != NoneItem
    ensures PriorStep(args, pp, k).Ok? && PriorStep(args, pp, k).value[DistKey(k)] == args[DistKey(k)]
  {
    DistKeyDiffers(k);
    if Limits(if Present(args, k) then Some(args[k]) else None, pp, k).value.Some? {
      TemplateFrame(args, k, Limits(if Present(args, k) then Some(args[k]) else None, pp, k).value.value);
    }
  }

  /** The limits, written under `k`, do not change what the template says about `k_dist`. */
  lemma TemplateFrame(args: Args, k: string, v: Arg)
    ensures TemplateDistribution(args[k := v], k) == TemplateDistribution(args, k)
  {
    DistKeyDiffers(k);
  }
}
