/**
 * The step runner of `Pipeline` (common/pipeline.py): a tree of steps run
 * in order, each step's worker returning `(success, skip_remaining,
 * skip_substeps)` or raising; raised exceptions are recorded rather than
 * propagated, and a critical step that fails is turned into a recorded
 * PipelineError.
 *
 * The workers are a parameter: `worker(name)` is what the worker function
 * of the step called `name` returns or raises. Step instances and the
 * shared context they modify are not modelled.
 */
module Runner {
  import opened Wrappers

  /** `PipelineStepResults`. */
  datatype StepResults = StepResults(success: bool, skipRemaining: bool, skipSubsteps: bool)

  /** What a worker function does when called: return its results or raise. */
  datatype Call = Returned(results: StepResults) | Raised(error: Error)

  /** The results of a step that went through: `(True, False, False)`. */
  const Done := Returned(StepResults(true, false, false))

  /** A step that is switched off but lets the next steps run: `(True, False, True)`. */
  const SkipSubsteps := Returned(StepResults(true, false, true))

  /** A step that is switched off and ends its list: `(True, True, True)`. */
  const SkipRemaining := Returned(StepResults(true, true, true))

  /** The outcome of a worker: its results, or the exception it raised. */
  function Outcome(f: Option<Error>): (c: Call)
    ensures f.None? <==> c == Done
    ensures f.Some? ==> c == Raised(f.value)
  {
    if f.None? then Done else Raised(f.value)
  }

  /**
   * One entry of a step list: its name, whether it has a `func`, its
   * `critical` flag and its `substeps` (an absent key runs like an empty
   * list).
   */
  datatype Step = Step(name: string, hasFunc: bool, critical: bool, substeps: seq<Step>)

  /**
   * The effect of running some steps: the AND of their successes, the
   * steps whose worker was called, the exceptions recorded with the step
   * each traceback belongs to, and an exception that escaped the runner.
   */
  datatype Exec = Exec(success: bool, calls: seq<string>, errors: seq<Error>, tracebacks: seq<string>, escaped: Option<Error>)

  /** A worker call that counts as a success. */
  predicate Succeeded(c: Call) {
    c.Returned? && c.results.success
  }

  /** Running nothing. */
  const Nothing := Exec(true, [], [], [], None)

  /** `a` followed by `b`; once an exception has escaped nothing else runs. */
  function Then(a: Exec, b: Exec): Exec
  {
    if a.escaped.Some? then a
    else Exec(a.success && b.success, a.calls + b.calls, a.errors + b.errors, a.tracebacks + b.tracebacks, b.escaped)
  }

  lemma ThenAssociative(a: Exec, b: Exec, c: Exec)
    ensures Then(Then(a, b), c) == Then(a, Then(b, c))
  {
    if a.escaped.None? && b.escaped.None? {
      assert (a.calls + b.calls) + c.calls == a.calls + (b.calls + c.calls);
      assert (a.errors + b.errors) + c.errors == a.errors + (b.errors + c.errors);
      assert (a.tracebacks + b.tracebacks) + c.tracebacks == a.tracebacks + (b.tracebacks + c.tracebacks);
    }
  }

  lemma AppendAssociative<T>(a: seq<T>, b: seq<T>, c: seq<T>)
    ensures (a + b) + c == a + (b + c)
  {
  }

  lemma ThenNothing(a: Exec)
    ensures Then(a, Nothing) == a && Then(Nothing, a) == a
  {
    assert a.calls + [] == a.calls && a.errors + [] == a.errors && a.tracebacks + [] == a.tracebacks;
  }

  /**
   * `__execute_step`: a raised exception, or a failure of a critical step
   * (raised as PipelineError), is recorded with its traceback and yields
   * `(False, True, True)`; otherwise the worker's own results come back.
   */
  function CallStep(worker: string -> Call, st: Step): (r: (StepResults, Exec))
    ensures r.1.calls == [st.name] && r.1.escaped.None? && r.1.success == Succeeded(worker(st.name)) == r.0.success
    ensures r.1.tracebacks == if r.1.errors == [] then [] else [st.name]
    ensures r.1.errors != [] <==> worker(st.name).Raised? || (!worker(st.name).results.success && st.critical)
    ensures worker(st.name).Raised? ==> r.1.errors == [worker(st.name).error]
    ensures worker(st.name).Returned? && st.critical && !worker(st.name).results.success ==> r.1.errors == [PipelineError]
    ensures r.1.errors != [] ==> r.0 == StepResults(false, true, true)
    ensures r.1.errors == [] ==> r.0 == worker(st.name).results
  {
    var c := worker(st.name);
    if c.Raised? then (StepResults(false, true, true), Exec(false, [st.name], [c.error], [st.name], None))
    else if !c.results.success && st.critical then
      (StepResults(false, true, true), Exec(false, [st.name], [PipelineError], [st.name], None))
    else (c.results, Exec(c.results.success, [st.name], [], [], None))
  }

  /**
   * `__execute_steps` from the `i`-th step of a list on, with `skip` the
   * current value of the loop's `skip_substeps` variable (None while it is
   * still unbound). A step's `skip_remaining` ends the list before its
   * substeps; a step without `func` runs no worker.
   */
  function RunList(worker: string -> Call, steps: seq<Step>, i: nat, skip: Option<bool>): Exec
    requires i <= |steps|
    decreases steps, |steps| - i, 1
  {
    if i == |steps| then Nothing
    else if steps[i].hasFunc then
      var (res, head) := CallStep(worker, steps[i]);
      if res.skipRemaining then head
      else Then(head, RunRest(worker, steps, i, Some(res.skipSubsteps)))
    else RunRest(worker, steps, i, skip)
  }

  /**
   * The rest of one turn of the loop, after the step's own worker: reading
   * `skip_substeps` (an unbound variable raises UnboundLocalError, which
   * nothing catches), the substeps unless skipped, then the next steps.
   */
  function RunRest(worker: string -> Call, steps: seq<Step>, i: nat, skip: Option<bool>): Exec
    requires i < |steps|
    decreases steps, |steps| - i, 0
  {
    if skip.None? then Exec(true, [], [], [], Some(UnboundLocalError))
    else
      var sub := if skip.value then Nothing else RunList(worker, steps[i].substeps, 0, None);
      Then(sub, RunList(worker, steps, i + 1, skip))
  }

  /** The conditions every run keeps: one traceback per recorded exception, at most one exception per worker call, and success the AND of the calls' successes. */
  predicate Accounted(worker: string -> Call, r: Exec) {
    |r.errors| == |r.tracebacks| <= |r.calls| &&
    (r.success <==> forall j :: 0 <= j < |r.calls| ==> Succeeded(worker(r.calls[j])))
  }

  /** Running one part after another keeps the accounting. */
  lemma ThenAccounted(worker: string -> Call, a: Exec, b: Exec)
    requires Accounted(worker, a) && Accounted(worker, b)
    ensures Accounted(worker, Then(a, b))
  {
    if a.escaped.None? {
      var cs := a.calls + b.calls;
      assert forall j :: 0 <= j < |a.calls| ==> cs[j] == a.calls[j];
      assert forall j :: 0 <= j < |b.calls| ==> cs[|a.calls| + j] == b.calls[j];
      if forall j :: 0 <= j < |cs| ==> Succeeded(worker(cs[j])) {
        assert forall j :: 0 <= j < |b.calls| ==> Succeeded(worker(b.calls[j])) by {
          forall j | 0 <= j < |b.calls|
            ensures Succeeded(worker(b.calls[j]))
          {
            assert cs[|a.calls| + j] == b.calls[j];
          }
        }
      }
    }
  }

  /** Every run of a list keeps the accounting. */
  lemma {:induction false} RunListAccounted(worker: string -> Call, steps: seq<Step>, i: nat, skip: Option<bool>)
    requires i <= |steps|
    ensures Accounted(worker, RunList(worker, steps, i, skip))
    decreases steps, |steps| - i, 1
  {
    if i < |steps| {
      if steps[i].hasFunc {
        var (res, head) := CallStep(worker, steps[i]);
        assert head.calls[0] == steps[i].name;
        if !res.skipRemaining {
          RunRestAccounted(worker, steps, i, Some(res.skipSubsteps));
          ThenAccounted(worker, head, RunRest(worker, steps, i, Some(res.skipSubsteps)));
        }
      } else {
        RunRestAccounted(worker, steps, i, skip);
      }
    }
  }

  lemma {:induction false} RunRestAccounted(worker: string -> Call, steps: seq<Step>, i: nat, skip: Option<bool>)
    requires i < |steps|
    ensures Accounted(worker, RunRest(worker, steps, i, skip))
    decreases steps, |steps| - i, 0
  {
    if skip.Some? {
      if !skip.value {
        RunListAccounted(worker, steps[i].substeps, 0, None);
      }
      RunListAccounted(worker, steps, i + 1, skip);
      var sub := if skip.value then Nothing else RunList(worker, steps[i].substeps, 0, None);
      ThenAccounted(worker, sub, RunList(worker, steps, i + 1, skip));
    }
  }

  /** The whole run of a list: `__execute_steps(steps, context)`. */
  function Run(worker: string -> Call, steps: seq<Step>): Exec {
    RunList(worker, steps, 0, None)
  }

  /** A first step without a worker function leaves `skip_substeps` unbound, and the run escapes at once. */
  lemma FirstStepWithoutFunc(worker: string -> Call, steps: seq<Step>)
    requires steps != [] && !steps[0].hasFunc
    ensures Run(worker, steps) == Exec(true, [], [], [], Some(UnboundLocalError))
  {
    assert Run(worker, steps) == RunRest(worker, steps, 0, None);
  }

  /** A step whose results ask to skip the remaining steps is the last one of its list to run: neither its substeps nor the steps after it run. */
  lemma SkipRemainingEndsList(worker: string -> Call, steps: seq<Step>, i: nat, skip: Option<bool>)
    requires i < |steps| && steps[i].hasFunc && CallStep(worker, steps[i]).0.skipRemaining
    ensures RunList(worker, steps, i, skip).calls == [steps[i].name]
    ensures RunList(worker, steps, i, skip).escaped.None?
  {
  }

  /**
   * A step that neither skips the rest nor its substeps runs its substeps
   * on its own, and the steps after it run whatever the substeps' results
   * said about skipping: `skip_remaining` inside the substeps stops only
   * the substep list.
   */
  lemma SubstepsThenSiblings(worker: string -> Call, steps: seq<Step>, i: nat, skip: Option<bool>)
    requires i < |steps| && steps[i].hasFunc
    requires var res := CallStep(worker, steps[i]).0; !res.skipRemaining && !res.skipSubsteps
    requires Run(worker, steps[i].substeps).escaped.None?
    ensures RunList(worker, steps, i, skip).calls ==
      [steps[i].name] + Run(worker, steps[i].substeps).calls + RunList(worker, steps, i + 1, Some(false)).calls
  {
    var sub := Run(worker, steps[i].substeps);
    var rest := RunList(worker, steps, i + 1, Some(false));
    assert RunRest(worker, steps, i, Some(false)).calls == sub.calls + rest.calls;
  }

  /** A step whose results skip its substeps goes straight on to the next step. */
  lemma SkipSubstepsGoesOn(worker: string -> Call, steps: seq<Step>, i: nat, skip: Option<bool>)
    requires i < |steps| && steps[i].hasFunc
    requires var res := CallStep(worker, steps[i]).0; !res.skipRemaining && res.skipSubsteps
    ensures RunList(worker, steps, i, skip).calls == [steps[i].name] + RunList(worker, steps, i + 1, Some(true)).calls
  {
    assert RunRest(worker, steps, i, Some(true)) == Then(Nothing, RunList(worker, steps, i + 1, Some(true)));
  }

  /** `Pipeline`: the script, configuration and trace handles, and the exceptions recorded during a run. */
  class Pipeline {
    var script: Option<string>
    var config: Option<string>
    var trace: Option<string>
    var exceptions: seq<Error>
    var tracebacks: seq<string>

    /** Every recorded exception has its traceback. */
    predicate Valid()
      reads this
    {
      |exceptions| == |tracebacks|
    }

    constructor (script: Option<string>, config: Option<string>, trace: Option<string>)
      ensures Valid() && exceptions == [] && tracebacks == []
      ensures this.script == script && this.config == config && this.trace == trace
    {
      this.script := script;
      this.config := config;
      this.trace := trace;
      exceptions := [];
      tracebacks := [];
    }

    /** `update(script, config, trace)`: an argument given as None keeps the current value. */
    method Update(script: Option<string>, config: Option<string>, trace: Option<string>)
      modifies this
      ensures this.script == (if script.Some? then script else old(this.script))
      ensures this.config == (if config.Some? then config else old(this.config))
      ensures this.trace == (if trace.Some? then trace else old(this.trace))
      ensures exceptions == old(exceptions) && tracebacks == old(tracebacks)
    {
      if script.Some? { this.script := script; }
      if config.Some? { this.config := config; }
      if trace.Some? { this.trace := trace; }
    }

    /** `__execute_step`: the worker's results, with a raised exception appended to both lists. */
    method ExecuteStep(worker: string -> Call, st: Step) returns (res: StepResults)
      modifies this
      ensures res == CallStep(worker, st).0
      ensures exceptions == old(exceptions) + CallStep(worker, st).1.errors
      ensures tracebacks == old(tracebacks) + CallStep(worker, st).1.tracebacks
      ensures script == old(script) && config == old(config) && trace == old(trace)
    {
      var c := worker(st.name);
      if c.Returned? && (c.results.success || !st.critical) {
        return c.results;
      }
      var e := if c.Raised? then c.error else PipelineError;
      exceptions := exceptions + [e];
      tracebacks := tracebacks + [st.name];
      return StepResults(false, true, true);
    }

    /** `__execute_steps(steps, context)`: the AND of the successes, or the exception that escaped. */
    method ExecuteSteps(worker: string -> Call, steps: seq<Step>) returns (success: bool, escaped: Option<Error>)
      modifies this
      ensures var r := Run(worker, steps);
        escaped == r.escaped && (escaped.None? ==> success == r.success) &&
        exceptions == old(exceptions) + r.errors && tracebacks == old(tracebacks) + r.tracebacks
      ensures script == old(script) && config == old(config) && trace == old(trace)
      decreases steps
    {
      success := true;
      var skip: Option<bool> := None;
      ghost var done := Nothing;
      var i := 0;
      while i < |steps|
        invariant i <= |steps| && done.escaped.None? && done.success == success
        invariant Then(done, RunList(worker, steps, i, skip)) == Run(worker, steps)
        invariant exceptions == old(exceptions) + done.errors && tracebacks == old(tracebacks) + done.tracebacks
        invariant script == old(script) && config == old(config) && trace == old(trace)
      {
        var st := steps[i];
        if st.hasFunc {
          var res := ExecuteStep(worker, st);
          ghost var head := CallStep(worker, st).1;
          AppendAssociative(old(exceptions), done.errors, head.errors);
          AppendAssociative(old(tracebacks), done.tracebacks, head.tracebacks);
          ThenAssociative(done, CallStep(worker, st).1, RunRest(worker, steps, i, Some(res.skipSubsteps)));
          done := Then(done, CallStep(worker, st).1);
          success := success && res.success;
          if res.skipRemaining {
            return success, None;
          }
          skip := Some(res.skipSubsteps);
        }
        assert Then(done, RunRest(worker, steps, i, skip)) == Run(worker, steps);
        if skip.None? {
          ThenNothing(done);
          assert done.errors + [] == done.errors && done.tracebacks + [] == done.tracebacks;
          return success, Some(UnboundLocalError);
        }
        ghost var sub := if skip.value then Nothing else Run(worker, st.substeps);
        assert RunRest(worker, steps, i, skip) == Then(sub, RunList(worker, steps, i + 1, skip));
        ThenAssociative(done, sub, RunList(worker, steps, i + 1, skip));
        if !skip.value {
          ghost var before := exceptions;
          ghost var beforeTracebacks := tracebacks;
          var subSuccess, subEscaped := ExecuteSteps(worker, st.substeps);
          assert exceptions == before + sub.errors && tracebacks == beforeTracebacks + sub.tracebacks;
          AppendAssociative(old(exceptions), done.errors, sub.errors);
          AppendAssociative(old(tracebacks), done.tracebacks, sub.tracebacks);
          done := Then(done, sub);
          if subEscaped.Some? {
            return success, subEscaped;
          }
          success := success && subSuccess;
        } else {
          ThenNothing(done);
        }
        i := i + 1;
      }
      ThenNothing(done);
      escaped := None;
    }

    /**
     * `execute()`: run the steps; the recorded exceptions and tracebacks
     * are handed to `_save_exceptions` (returned here) and then both lists
     * are emptied. An exception that escapes the steps leaves them as they
     * are.
     */
    method Execute(worker: string -> Call, steps: seq<Step>) returns (saved: seq<Error>, savedTracebacks: seq<string>, escaped: Option<Error>)
      requires Valid()
      modifies this
      ensures Valid()
      ensures var r := Run(worker, steps);
        escaped == r.escaped &&
        (escaped.None? ==>
          saved == old(exceptions) + r.errors && savedTracebacks == old(tracebacks) + r.tracebacks &&
          exceptions == [] && tracebacks == []) &&
        (escaped.Some? ==> exceptions == old(exceptions) + r.errors && tracebacks == old(tracebacks) + r.tracebacks)
    {
      var _, e := ExecuteSteps(worker, steps);
      RunListAccounted(worker, steps, 0, None);
      if e.Some? {
        return [], [], e;
      }
      saved, savedTracebacks := exceptions, tracebacks;
      exceptions := [];
      tracebacks := [];
      escaped := None;
    }
  }
}
