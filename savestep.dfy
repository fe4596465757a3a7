/**
 * The save step (gapipe/steps/savestep.py): the stellar-parameter table
 * built from the RV-fit results, and the velocity-correction table built
 * from the observed visits.
 *
 * A Python dict is the sequence of its items in iteration order; the fit
 * values are reals that are only copied; a `TempFitFlag` value is a 32-bit
 * mask and the enumeration's members are a parameter. Building and
 * writing the output product is not modelled.
 */
module SaveStep {
  import opened Wrappers

  /** A `TempFitFlag` value. */
  type Flag = bv32

  /** A dict with string keys, as its items in iteration order. */
  type Dict<V> = seq<(string, V)>

  /** The keys of a dict, in order. */
  function Keys<V>(d: Dict<V>): (ks: seq<string>)
    ensures |ks| == |d| && forall i :: 0 <= i < |d| ==> ks[i] == d[i].0
  {
    seq(|d|, i requires 0 <= i < |d| => d[i].0)
  }

  /** `d[k]`, None when the key is missing. */
  function Get<V>(d: Dict<V>, k: string): (r: Option<V>)
    ensures r.None? <==> k !in Keys(d)
    ensures r.Some? ==> exists i :: 0 <= i < |d| && d[i] == (k, r.value)
  {
    if d == [] then None
    else if d[0].0 == k then Some(d[0].1)
    else
      assert Keys(d) == [d[0].0] + Keys(d[1..]);
      var r := Get(d[1..], k);
      assert r.Some? ==> exists i :: 0 <= i < |d[1..]| && d[1..][i] == (k, r.value);
      r
  }

  /** What the RV fit leaves for the save step. */
  datatype FitResults = FitResults(
    paramsFree: seq<string>, paramsFit: Dict<real>, paramsErr: Dict<real>, paramsFlags: Dict<Flag>,
    rvFit: real, rvErr: real, rvFlags: Flag)

  /** The members of `TempFitFlag` in enumeration order, and the value of its `OK` member. */
  datatype FlagEnum = FlagEnum(members: seq<(string, Flag)>, ok: Flag)

  /** The nine columns of `StellarParams`. */
  datatype StellarParams = StellarParams(
    methodName: seq<string>, frame: seq<string>, param: seq<string>, covarId: seq<int>, unit: seq<string>,
    value: seq<real>, valueErr: seq<real>, flag: seq<bool>, status: seq<string>)

  /** The unit table. */
  const Units: map<string, string> :=
    map["T_eff" := "K", "log_g" := "dex", "M_H" := "dex", "a_M" := "dex", "v_los" := "km s-1"]

  /** `params_all`: the fitted parameters in order, then the line-of-sight velocity. */
  function Rows(res: FitResults): seq<string> {
    Keys(res.paramsFit) + ["v_los"]
  }

  /** The position of the first `p` in `s`, or `|s|`. */
  function IndexOf(s: seq<string>, p: string): (k: nat)
    ensures k <= |s|
    ensures k < |s| ==> s[k] == p
    ensures forall j :: 0 <= j < k ==> s[j] != p
  {
    if s == [] then 0 else if s[0] == p then 0 else 1 + IndexOf(s[1..], p)
  }

  /** `covarId`: the position in `params_free + ['v_los']`, 255 for a parameter not there. */
  function CovarId(res: FitResults, p: string): int {
    var fitted := res.paramsFree + ["v_los"];
    var k := IndexOf(fitted, p);
    if k < |fitted| then k else 255
  }

  function Unit(p: string): string {
    if p in Units then Units[p] else ""
  }

  /**
   * The value and error of a row: from `params_fit`/`params_err`, for
   * `v_los` from `rv_fit`/`rv_err`; a missing error raises KeyError and
   * any other parameter NotImplementedError.
   */
  function ValueOf(res: FitResults, p: string): Result<(real, real)> {
    var v := Get(res.paramsFit, p);
    if v.Some? then
      var e := Get(res.paramsErr, p);
      if e.Some? then Ok((v.value, e.value)) else Fail(KeyError)
    else if p == "v_los" then Ok((res.rvFit, res.rvErr))
    else Fail(NotImplementedError)
  }

  /** `flags_all[p]`: the parameter flags, with `v_los` taking the velocity flags. */
  function FlagOf(res: FitResults, p: string): Option<Flag> {
    if p == "v_los" then Some(res.rvFlags) else Get(res.paramsFlags, p)
  }

  /** `(m & f) != 0`. */
  predicate Shares(m: Flag, f: Flag) {
    m & f != 0
  }

  /** The names of the members that share a bit with `f`, in enumeration order. */
  function SetNames(members: seq<(string, Flag)>, f: Flag): seq<string> {
    if members == [] then []
    else (if Shares(members[0].1, f) then [members[0].0] else []) + SetNames(members[1..], f)
  }

  /** A name is listed exactly when its member shares a bit with the flag value. */
  lemma {:induction false} SetNamesMembers(members: seq<(string, Flag)>, f: Flag, n: string)
    ensures n in SetNames(members, f) <==> exists i :: 0 <= i < |members| && members[i].0 == n && Shares(members[i].1, f)
  {
    if members != [] {
      SetNamesMembers(members[1..], f, n);
      if i :| 0 <= i < |members| && members[i].0 == n && Shares(members[i].1, f) {
        if i > 0 {
          assert members[1..][i - 1] == members[i];
        }
      }
      if i :| 0 <= i < |members[1..]| && members[1..][i].0 == n && Shares(members[1..][i].1, f) {
        assert members[i + 1] == members[1..][i];
      }
    }
  }

  /** `' '.join(names)`. */
  function Join(names: seq<string>): string {
    if names == [] then ""
    else if |names| == 1 then names[0]
    else names[0] + " " + Join(names[1..])
  }

  /** The `flag` and `status` of a row: False and '' for a parameter without flags. */
  function FlagColumns(fe: FlagEnum, res: FitResults, p: string): (bool, string) {
    match FlagOf(res, p)
    case None => (false, "")
    case Some(f) => (f != fe.ok, Join(SetNames(fe.members, f)))
  }

  /** Row `i` of the table holds what the source computes for parameter `p`. */
  predicate RowOf(fe: FlagEnum, res: FitResults, t: StellarParams, i: nat, p: string)
    requires i < |t.methodName| && i < |t.frame| && i < |t.param| && i < |t.covarId| && i < |t.unit|
    requires i < |t.value| && i < |t.valueErr| && i < |t.flag| && i < |t.status|
  {
    t.methodName[i] == "ga1dpipe" && t.frame[i] == "bary" && t.param[i] == p &&
    t.covarId[i] == CovarId(res, p) && t.unit[i] == Unit(p) &&
    ValueOf(res, p) == Ok((t.value[i], t.valueErr[i])) &&
    (t.flag[i], t.status[i]) == FlagColumns(fe, res, p)
  }

  /** All nine columns have one entry per row, and each row is the row of its parameter. */
  predicate TableOf(fe: FlagEnum, res: FitResults, rows: seq<string>, t: StellarParams) {
    |t.methodName| == |rows| && |t.frame| == |rows| && |t.param| == |rows| && |t.covarId| == |rows| &&
    |t.unit| == |rows| && |t.value| == |rows| && |t.valueErr| == |rows| && |t.flag| == |rows| &&
    |t.status| == |rows| &&
    forall i :: 0 <= i < |rows| ==> RowOf(fe, res, t, i, rows[i])
  }

  /** Some row has no value. */
  predicate ValueMissing(res: FitResults, rows: seq<string>) {
    exists i :: 0 <= i < |rows| && ValueOf(res, rows[i]).Fail?
  }

  /** One more row at the end of every column. */
  function Append(t: StellarParams, p: string, covarId: int, unit: string, v: real, e: real, f: bool, s: string): StellarParams {
    StellarParams(t.methodName + ["ga1dpipe"], t.frame + ["bary"], t.param + [p], t.covarId + [covarId], t.unit + [unit],
                  t.value + [v], t.valueErr + [e], t.flag + [f], t.status + [s])
  }

  /** Appending the row of `p` to a table of `rows` gives the table of `rows + [p]`. */
  lemma AppendRow(fe: FlagEnum, res: FitResults, rows: seq<string>, t: StellarParams, p: string, v: real, e: real)
    requires TableOf(fe, res, rows, t) && ValueOf(res, p) == Ok((v, e))
    ensures TableOf(fe, res, rows + [p],
                    Append(t, p, CovarId(res, p), Unit(p), v, e, FlagColumns(fe, res, p).0, FlagColumns(fe, res, p).1))
  {
    var t' := Append(t, p, CovarId(res, p), Unit(p), v, e, FlagColumns(fe, res, p).0, FlagColumns(fe, res, p).1);
    forall i | 0 <= i < |rows| + 1
      ensures RowOf(fe, res, t', i, (rows + [p])[i])
    {
      if i < |rows| {
        assert RowOf(fe, res, t, i, rows[i]);
      }
    }
  }

  /**
   * `__get_stellar_params`: one row per parameter of `params_all`, the
   * nine columns appended together; a fitted parameter without an error
   * raises KeyError.
   */
  method GetStellarParams(fe: FlagEnum, res: FitResults) returns (r: Result<StellarParams>)
    ensures r.Fail? <==> ValueMissing(res, Rows(res))
    ensures r.Fail? ==> r.error == KeyError
    ensures r.Ok? ==> TableOf(fe, res, Rows(res), r.value)
  {
    var rows := Rows(res);
    var t := StellarParams([], [], [], [], [], [], [], [], []);
    var i := 0;
    while i < |rows|
      invariant 0 <= i <= |rows|
      invariant TableOf(fe, res, rows[..i], t)
      invariant !ValueMissing(res, rows[..i])
    {
      var p := rows[i];
      var ve := ValueOf(res, p);
      assert rows[..i + 1] == rows[..i] + [p];
      if ve.Fail? {
        NoOtherParameter(res, i);
        assert ValueMissing(res, rows);
        return Fail(ve.error);
      }
      var fl := FlagColumns(fe, res, p);
      AppendRow(fe, res, rows[..i], t, p, ve.value.0, ve.value.1);
      t := Append(t, p, CovarId(res, p), Unit(p), ve.value.0, ve.value.1, fl.0, fl.1);
      i := i + 1;
    }
    assert rows[..i] == rows;
    return Ok(t);
  }

  /** Every row of `params_all` is fitted or `v_los`, so the NotImplementedError branch is never taken. */
  lemma NoOtherParameter(res: FitResults, i: nat)
    requires i < |Rows(res)|
    ensures ValueOf(res, Rows(res)[i]) != Fail(NotImplementedError)
  {
    var rows := Rows(res);
    if i < |res.paramsFit| {
      assert rows[i] == Keys(res.paramsFit)[i];
    }
  }

  /** The table raises exactly when a fitted parameter has no error. */
  lemma MissingErrorRaises(res: FitResults)
    ensures ValueMissing(res, Rows(res)) <==> exists p :: p in Keys(res.paramsFit) && Get(res.paramsErr, p).None?
  {
    var rows := Rows(res);
    if ValueMissing(res, rows) {
      var i :| 0 <= i < |rows| && ValueOf(res, rows[i]).Fail?;
      NoOtherParameter(res, i);
      if i == |rows| - 1 {
        assert rows[i] == "v_los";
      } else {
        assert rows[i] in Keys(res.paramsFit);
      }
    }
    if p :| p in Keys(res.paramsFit) && Get(res.paramsErr, p).None? {
      var i :| 0 <= i < |res.paramsFit| && Keys(res.paramsFit)[i] == p;
      assert rows[i] == p;
    }
  }

  /**
   * The last row is `v_los`; when the fit has no `v_los` entry its value
   * is the fitted velocity, and its flags are the velocity flags.
   */
  lemma VelocityRow(fe: FlagEnum, res: FitResults, t: StellarParams)
    requires TableOf(fe, res, Rows(res), t)
    ensures var n := |Rows(res)| - 1;
      t.param[n] == "v_los" && t.unit[n] == "km s-1" &&
      (t.flag[n] <==> res.rvFlags != fe.ok) &&
      ("v_los" !in Keys(res.paramsFit) ==> t.value[n] == res.rvFit && t.valueErr[n] == res.rvErr)
  {
    var n := |Rows(res)| - 1;
    assert RowOf(fe, res, t, n, Rows(res)[n]);
  }

  /** A free parameter's `covarId` points at it in `params_free + ['v_los']`; any other gets 255. */
  lemma CovarIdMeaning(res: FitResults, p: string)
    ensures var fitted := res.paramsFree + ["v_los"];
      (p in fitted ==> 0 <= CovarId(res, p) < |fitted| && fitted[CovarId(res, p)] == p) &&
      (p !in fitted ==> CovarId(res, p) == 255)
  {
  }

  /** A flag column is true exactly when the parameter has flags other than OK. */
  lemma FlagMeaning(fe: FlagEnum, res: FitResults, p: string)
    ensures FlagColumns(fe, res, p).0 <==> FlagOf(res, p).Some? && FlagOf(res, p).value != fe.ok
    ensures FlagOf(res, p).None? ==> FlagColumns(fe, res, p) == (false, "")
    ensures FlagOf(res, p) == Some(0) ==> FlagColumns(fe, res, p).1 == ""
  {
    if FlagOf(res, p) == Some(0) {
      NoBitsNoNames(fe.members);
    }
  }

  /** A zero flag value names no member. */
  lemma {:induction false} NoBitsNoNames(members: seq<(string, Flag)>)
    ensures SetNames(members, 0) == []
  {
    if members != [] {
      NoBitsNoNames(members[1..]);
    }
  }

  /** `VelocityCorrections`: one entry per observed visit, the corrections all zero. */
  datatype VelocityCorrections = VelocityCorrections(visit: seq<int>, jd: seq<real>, helio: seq<real>, bary: seq<real>)

  function Zeros(n: nat): (z: seq<real>)
    ensures |z| == n && forall i :: 0 <= i < n ==> z[i] == 0.0
  {
    seq(n, i => 0.0)
  }

  /** `__get_velocity_corrections`. */
  function GetVelocityCorrections(visits: seq<int>): (v: VelocityCorrections)
    ensures v.visit == visits
    ensures |v.jd| == |visits| && |v.helio| == |visits| && |v.bary| == |visits|
    ensures forall i :: 0 <= i < |visits| ==> v.jd[i] == 0.0 && v.helio[i] == 0.0 && v.bary[i] == 0.0
  {
    VelocityCorrections(visits, Zeros(|visits|), Zeros(|visits|), Zeros(|visits|))
  }
}
