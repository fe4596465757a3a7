/**
 * The run script (scripts/run/runscript.py): which configuration files it
 * runs the pipeline on, how command-line directories take precedence over
 * a configuration's, the variables it sets on the input repository, and
 * the log level of a run.
 *
 * Loading a configuration file is a parameter from its path to the
 * directory settings it holds; executing the pipeline is recorded as the
 * path of the configuration it ran on.
 */
module RunScript {
  import opened Wrappers

  /** The directory settings of a pipeline configuration. */
  datatype Dirs = Dirs(workdir: Option<string>, outdir: Option<string>, datadir: Option<string>,
                       rerundir: Option<string>, rerun: Option<string>)

  /** The settings the run script passes on to the input repository. */
  datatype Name = Workdir | Outdir | Datadir | Rerundir | Rerun

  /** The repository variable of a setting. */
  function Key(n: Name): string {
    match n
    case Workdir => "workdir"
    case Outdir => "outdir"
    case Datadir => "datadir"
    case Rerundir => "rerundir"
    case Rerun => "rerun"
  }

  /** A configuration's setting. */
  function Setting(d: Dirs, n: Name): Option<string> {
    match n
    case Workdir => d.workdir
    case Outdir => d.outdir
    case Datadir => d.datadir
    case Rerundir => d.rerundir
    case Rerun => d.rerun
  }

  /** The directories a command-line argument can override; `rerun` is not one of them. */
  predicate Overridable(n: Name) {
    n != Rerun
  }

  /**
   * The directory settings after the command line: a directory given as an
   * argument replaces the configuration's.
   */
  function Overridden(d: Dirs, dirArgs: map<string, string>): (r: Dirs)
    ensures forall n: Name :: Setting(r, n) == if Overridable(n) && Key(n) in dirArgs then Some(dirArgs[Key(n)]) else Setting(d, n)
  {
    Dirs(if "workdir" in dirArgs then Some(dirArgs["workdir"]) else d.workdir,
         if "outdir" in dirArgs then Some(dirArgs["outdir"]) else d.outdir,
         if "datadir" in dirArgs then Some(dirArgs["datadir"]) else d.datadir,
         if "rerundir" in dirArgs then Some(dirArgs["rerundir"]) else d.rerundir,
         d.rerun)
  }

  /** The variables of the settings of `d` that are not None. */
  function SetKeys(d: Dirs): set<string> {
    (if d.workdir.Some? then {"workdir"} else {}) + (if d.outdir.Some? then {"outdir"} else {}) +
    (if d.datadir.Some? then {"datadir"} else {}) + (if d.rerundir.Some? then {"rerundir"} else {}) +
    (if d.rerun.Some? then {"rerun"} else {})
  }

  /** `vars` holds `k` exactly as `old_vars` did. */
  predicate Kept(vars: map<string, string>, old_vars: map<string, string>, k: string) {
    (k in vars <==> k in old_vars) && (k in vars ==> vars[k] == old_vars[k])
  }

  /**
   * The repository variables after the settings of `d` were set: each
   * setting that is not None is its variable's value, and every other
   * variable is as it was.
   */
  ghost predicate SetFrom(vars: map<string, string>, old_vars: map<string, string>, d: Dirs) {
    (forall n: Name :: Setting(d, n).Some? ==> Key(n) in vars && vars[Key(n)] == Setting(d, n).value) &&
    (forall k :: k !in SetKeys(d) ==> Kept(vars, old_vars, k))
  }

  /**
   * The configuration files to run: the given ones, else those found in the
   * work repository, cut to the first `top` as a Python slice cuts: a
   * negative `top` drops that many from the end.
   */
  function Head(files: seq<string>, top: Option<int>): (r: seq<string>)
    ensures r <= files
    ensures top.None? ==> r == files
    ensures top.Some? && top.value >= 0 ==> |r| == if top.value < |files| then top.value else |files|
    ensures top.Some? && top.value < 0 ==> |r| == if -top.value < |files| then |files| + top.value else 0
  {
    if top.None? then files
    else if top.value >= 0 then (if top.value < |files| then files[..top.value] else files)
    else if -top.value < |files| then files[..|files| + top.value]
    else []
  }

  /**
   * `--top 0` runs no configuration at all, while `--top -d` runs all but the
   * last `d` (none when `d` covers every file): so `--top -1` runs all but
   * the last.
   */
  lemma HeadEdges(files: seq<string>, d: int)
    requires d >= 1
    ensures Head(files, Some(0)) == []
    ensures Head(files, Some(-d)) == files[..|files| - (if d < |files| then d else |files|)]
  {
  }

  /** Python's `logging.DEBUG`. */
  const Debug: int := 10

  /**
   * The log level of a run: the pipeline's, lowered to the script's own
   * level when that is given and lower, and to DEBUG in debug mode.
   */
  function LogLevel(pipelineLevel: int, scriptLevel: Option<int>, debug: bool): (r: int)
    ensures r <= pipelineLevel
    ensures scriptLevel.Some? ==> r <= scriptLevel.value
    ensures debug ==> r <= Debug
    ensures r == pipelineLevel || (scriptLevel.Some? && r == scriptLevel.value) || (debug && r == Debug)
  {
    var l := if scriptLevel.Some? && scriptLevel.value < pipelineLevel then scriptLevel.value else pipelineLevel;
    if debug && Debug < l then Debug else l
  }

  /** The script's state: its arguments, the runs it made and the input repository's variables. */
  class Script {
    var top: Option<int>
    var configFiles: Option<seq<string>>
    /** Directories given on the command line, by argument name. */
    var dirArgs: map<string, string>
    /** The input repository's variables. */
    var variables: map<string, string>
    /** The configuration files the pipeline ran on, in order. */
    var runs: seq<string>

    /** No `top`, no configuration files, nothing run. */
    constructor (dirArgs: map<string, string>, variables: map<string, string>)
      ensures top.None? && configFiles.None? && runs == []
      ensures this.dirArgs == dirArgs && this.variables == variables
    {
      this.top, this.configFiles, this.runs := None, None, [];
      this.dirArgs, this.variables := dirArgs, variables;
    }

    /** `_init_from_args`: given configuration files and a given `top` replace the current ones. */
    method InitFromArgs(configArg: Option<seq<string>>, topArg: Option<int>)
      modifies this
      ensures configFiles == (if configArg.Some? then configArg else old(configFiles))
      ensures top == (if topArg.Some? then topArg else old(top))
      ensures dirArgs == old(dirArgs) && variables == old(variables) && runs == old(runs)
    {
      if configArg.Some? {
        configFiles := configArg;
      }
      if topArg.Some? {
        top := topArg;
      }
    }

    /**
     * `__update_directories`: the command line overrides the
     * configuration's directories, then every setting that is not None is
     * set on the input repository.
     */
    method UpdateDirectories(d: Dirs) returns (r: Dirs)
      modifies this
      ensures r == Overridden(d, dirArgs)
      ensures variables == Apply(old(variables), r)
      ensures top == old(top) && configFiles == old(configFiles) && dirArgs == old(dirArgs) && runs == old(runs)
    {
      r := d;
      if "workdir" in dirArgs {
        r := r.(workdir := Some(dirArgs["workdir"]));
      }
      if "outdir" in dirArgs {
        r := r.(outdir := Some(dirArgs["outdir"]));
      }
      if "datadir" in dirArgs {
        r := r.(datadir := Some(dirArgs["datadir"]));
      }
      if "rerundir" in dirArgs {
        r := r.(rerundir := Some(dirArgs["rerundir"]));
      }
      var vars := variables;
      if r.workdir.Some? {
        vars := vars["workdir" := r.workdir.value];
      }
      if r.outdir.Some? {
        vars := vars["outdir" := r.outdir.value];
      }
      if r.datadir.Some? {
        vars := vars["datadir" := r.datadir.value];
      }
      if r.rerundir.Some? {
        vars := vars["rerundir" := r.rerundir.value];
      }
      if r.rerun.Some? {
        vars := vars["rerun" := r.rerun.value];
      }
      variables := vars;
    }

    /**
     * `run`: the given configuration files, or else those found, when
     * there are any; cut by `top`; the pipeline runs on each in turn, its
     * directories updated first.
     */
    method Run(found: seq<string>, load: string -> Dirs)
      modifies this
      ensures top == old(top) && dirArgs == old(dirArgs)
      ensures old(configFiles).None? && found == [] ==>
        configFiles == Some([]) && runs == old(runs) && variables == old(variables)
      ensures old(configFiles).Some? || found != [] ==>
        var files := Head(if old(configFiles).Some? then old(configFiles).value else found, top);
        configFiles == Some(files) && runs == old(runs) + files &&
        variables == Vars(old(variables), files, load, dirArgs)
    {
      if configFiles.None? {
        configFiles := Some(found);
        if |found| == 0 {
          return;
        }
      }
      if top.Some? {
        configFiles := Some(Head(configFiles.value, top));
      }
      var files := configFiles.value;
      var i := 0;
      while i < |files|
        invariant 0 <= i <= |files|
        invariant top == old(top) && dirArgs == old(dirArgs) && configFiles == Some(files)
        invariant runs == old(runs) + files[..i]
        invariant variables == Vars(old(variables), files[..i], load, dirArgs)
      {
        RunPipeline(files[i], load);
        assert files[..i + 1] == files[..i] + [files[i]];
        i := i + 1;
      }
      assert files[..i] == files;
    }

    /**
     * `__run_pipeline`: the configuration is loaded, its directories
     * updated, and the pipeline runs on it.
     */
    method RunPipeline(file: string, load: string -> Dirs)
      modifies this
      ensures runs == old(runs) + [file]
      ensures variables == Apply(old(variables), Overridden(load(file), dirArgs))
      ensures top == old(top) && configFiles == old(configFiles) && dirArgs == old(dirArgs)
    {
      var d := UpdateDirectories(load(file));
      runs := runs + [file];
    }
  }

  /** The variables once the settings of `d` were set. */
  function Apply(vars: map<string, string>, d: Dirs): map<string, string> {
    var v1 := if d.workdir.Some? then vars["workdir" := d.workdir.value] else vars;
    var v2 := if d.outdir.Some? then v1["outdir" := d.outdir.value] else v1;
    var v3 := if d.datadir.Some? then v2["datadir" := d.datadir.value] else v2;
    var v4 := if d.rerundir.Some? then v3["rerundir" := d.rerundir.value] else v3;
    if d.rerun.Some? then v4["rerun" := d.rerun.value] else v4
  }

  /** The variables after the runs on `files`, one after the other. */
  function Vars(vars: map<string, string>, files: seq<string>, load: string -> Dirs, dirArgs: map<string, string>): map<string, string> {
    if files == [] then vars
    else Apply(Vars(vars, files[..|files| - 1], load, dirArgs), Overridden(load(files[|files| - 1]), dirArgs))
  }

  /** Setting the settings of `d` sets exactly those that are not None. */
  lemma ApplySets(vars: map<string, string>, d: Dirs)
    ensures SetFrom(Apply(vars, d), vars, d)
  {
  }

  /**
   * After the runs on `files`, the input repository holds the settings of
   * the last configuration, overridden by the command line, and the
   * earlier value of every setting that configuration leaves None.
   */
  lemma {:induction false} LastRunSets(vars: map<string, string>, files: seq<string>, load: string -> Dirs,
                                      dirArgs: map<string, string>)
    requires files != []
    ensures SetFrom(Vars(vars, files, load, dirArgs), Vars(vars, files[..|files| - 1], load, dirArgs),
                    Overridden(load(files[|files| - 1]), dirArgs))
  {
    ApplySets(Vars(vars, files[..|files| - 1], load, dirArgs), Overridden(load(files[|files| - 1]), dirArgs));
  }

  /**
   * A directory given on the command line is what the input repository
   * holds after any run, whatever the configuration files say.
   */
  lemma {:induction false} CommandLineWins(vars: map<string, string>, files: seq<string>, load: string -> Dirs,
                                          dirArgs: map<string, string>, n: Name)
    requires files != [] && Overridable(n) && Key(n) in dirArgs
    ensures Key(n) in Vars(vars, files, load, dirArgs) && Vars(vars, files, load, dirArgs)[Key(n)] == dirArgs[Key(n)]
  {
    LastRunSets(vars, files, load, dirArgs);
  }
}
