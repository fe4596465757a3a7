/**
 * Batch job generation: the Slurm job file `SubmitScript` writes for each
 * object (scripts/submit/submitscript.py) and the sbatch script the
 * `BatchScript` mixin pipes into `sbatch` (scripts/batchscript.py), with
 * the `top` cutoff both follow.
 *
 * Writing a file is recorded as a (path, content) pair and running a
 * command as its text; `sbatch`'s return code and error output are
 * parameters. Repository lookups (`format_dir`, `format_filename`) and the
 * visit hash functions are parameters too.
 */
module Jobs {
  import opened Wrappers
  import Text
  import Locator
  import Identity

  // ---------------------------------------------------------------------
  // Arguments and the `top` cutoff

  /** `get_arg(name, args, default)` for a string: a missing or empty argument defers to the default. */
  function ArgOr(given: Option<string>, default: string): (r: string)
    ensures given.Some? && given.value != "" ==> r == given.value
    ensures given.None? || given.value == "" ==> r == default
  {
    if given.Some? && given.value != "" then given.value else default
  }

  /**
   * How many of `n` objects a loop handles that counts each object and
   * breaks once the count reaches `top`: all of them without `top`, else
   * `top` of them, but at least the first even when `top` is below one.
   */
  function Taken(n: nat, top: Option<int>): (k: nat)
    ensures k <= n && (n > 0 <==> k > 0)
    ensures top.None? ==> k == n
    ensures top.Some? && 1 <= top.value ==> k == (if top.value < n then top.value else n)
  {
    if n == 0 then 0
    else if top.None? then n
    else if top.value <= 1 then 1
    else if top.value < n then top.value
    else n
  }

  /** After `q` objects, the loop goes on exactly when fewer than `Taken` have been handled. */
  lemma TakenStops(n: nat, top: Option<int>, q: nat)
    requires 1 <= q <= Taken(n, top)
    ensures (top.Some? && q >= top.value) || q == n <==> q == Taken(n, top)
  {
  }

  // ---------------------------------------------------------------------
  // Script text

  predicate StartsWith(s: string, p: string) {
    |p| <= |s| && s[..|p|] == p
  }

  /** The lines of a text, written one after the other with a newline between each two. */
  function Lines(ls: seq<string>): string {
    Text.Join(ls, '\n')
  }

  /** Options carry the `#SBATCH` prefix. */
  const Sbatch: string := "#SBATCH"

  /**
   * A job script: a shebang line, exactly the given `#SBATCH` lines right
   * after it, and no other line starting with `#SBATCH`.
   */
  predicate OptionsExactly(ls: seq<string>, options: seq<string>) {
    |ls| > |options| &&
    ls[1..|options| + 1] == options &&
    forall i :: 0 <= i < |ls| ==> (StartsWith(ls[i], Sbatch) <==> 1 <= i <= |options|)
  }

  /** Lines none of which starts with `#`. */
  predicate Unmarked(ls: seq<string>) {
    forall i :: 0 <= i < |ls| ==> ls[i] == [] || ls[i][0] != '#'
  }

  /** A shebang, then option lines, then unmarked lines, has exactly those options. */
  lemma OptionsOnly(shebang: string, options: seq<string>, body: seq<string>)
    requires |shebang| >= 2 && shebang[..2] == "#!"
    requires forall i :: 0 <= i < |options| ==> StartsWith(options[i], Sbatch)
    requires Unmarked(body)
    ensures OptionsExactly([shebang] + options + body, options)
  {
    var ls := [shebang] + options + body;
    assert ls[1..|options| + 1] == options;
    forall i | 0 <= i < |ls|
      ensures StartsWith(ls[i], Sbatch) <==> 1 <= i <= |options|
    {
      if i == 0 {
        assert ls[i][1] == '!';
      } else if i > |options| {
        assert ls[i] == body[i - |options| - 1];
      }
    }
  }

  /** No line contains a newline. */
  predicate SingleLines(ls: seq<string>) {
    forall i :: 0 <= i < |ls| ==> '\n' !in ls[i]
  }

  /** Values that stay on one line. */
  predicate OneLine(s: string) {
    '\n' !in s
  }

  // ---------------------------------------------------------------------
  // The mixin (batchscript.py)

  /** The option lines of the sbatch script. */
  function BatchOptions(partition: string, cpus: string, memory: string, time: string): seq<string> {
    ["#SBATCH --partition " + partition, "#SBATCH --cpus-per-task " + cpus, "#SBATCH --mem " + memory, "#SBATCH --time " + time]
  }

  /** The lines after the options: run the command, then move the Slurm log to the output directory it reports. */
  function BatchBody(command: string): seq<string> {
    ["", "echo $PYTHONPATH", "", "set -e", "", "out=slurm-\\$SLURM_JOB_ID.out",
     "srun " + command,
     FindOutdir,
     "mv \\$out \\$outdir/slurm.out", ""]
  }

  /** The line that reads the output directory from the Slurm log. */
  const FindOutdir: string := "outdir=\\$(cat \\$out | grep -Po " + "'Output directory is (\\K.+)')"

  function BatchLines(partition: string, cpus: string, memory: string, time: string, command: string): seq<string> {
    ["#!/bin/env bash"] + BatchOptions(partition, cpus, memory, time) + BatchBody(command)
  }

  /** The sbatch script of `_submit_job`. */
  function BatchText(partition: string, cpus: string, memory: string, time: string, command: string): string {
    Lines(BatchLines(partition, cpus, memory, time, command))
  }

  /**
   * With single-line settings the script reads back as its lines: four
   * `#SBATCH` lines from the settings, the `srun` of the command, and the
   * move of the log file last.
   */
  lemma BatchScriptShape(partition: string, cpus: string, memory: string, time: string, command: string)
    requires OneLine(partition) && OneLine(cpus) && OneLine(memory) && OneLine(time) && OneLine(command)
    ensures var ls := BatchLines(partition, cpus, memory, time, command);
      Text.Split(BatchText(partition, cpus, memory, time, command), '\n') == ls &&
      OptionsExactly(ls, BatchOptions(partition, cpus, memory, time)) &&
      |BatchOptions(partition, cpus, memory, time)| == 4 &&
      ls[11] == "srun " + command && ls[13] == "mv \\$out \\$outdir/slurm.out"
  {
    var ls := BatchLines(partition, cpus, memory, time, command);
    BodyUnmarked(command);
    OptionsMarked(partition, cpus, memory, time);
    OptionsOnly("#!/bin/env bash", BatchOptions(partition, cpus, memory, time), BatchBody(command));
    BatchSingleLines(partition, cpus, memory, time, command);
    Text.JoinThenSplit(ls, '\n');
    BatchLinesAt(partition, cpus, memory, time, command);
  }

  /** The run of the command is line 11 of the script and the move of the log line 13. */
  lemma BatchLinesAt(partition: string, cpus: string, memory: string, time: string, command: string)
    ensures var ls := BatchLines(partition, cpus, memory, time, command);
      |BatchOptions(partition, cpus, memory, time)| == 4 &&
      |ls| == 15 && ls[11] == "srun " + command && ls[13] == "mv \\$out \\$outdir/slurm.out"
  {
    var ls := BatchLines(partition, cpus, memory, time, command);
    var head := ["#!/bin/env bash"] + BatchOptions(partition, cpus, memory, time);
    assert |head| == 5;
    assert ls[11] == BatchBody(command)[6];
    assert ls[13] == BatchBody(command)[8];
  }

  /** No line of the script body starts with `#`. */
  lemma BodyUnmarked(command: string)
    ensures Unmarked(BatchBody(command))
  {
    var body := BatchBody(command);
    forall i | 0 <= i < |body|
      ensures body[i] == [] || body[i][0] != '#'
    {
      BodyLine(body, i, command);
    }
  }

  /** Every option line starts with `#SBATCH`. */
  lemma OptionsMarked(partition: string, cpus: string, memory: string, time: string)
    ensures forall i :: 0 <= i < |BatchOptions(partition, cpus, memory, time)| ==>
      StartsWith(BatchOptions(partition, cpus, memory, time)[i], Sbatch)
  {
    var options := BatchOptions(partition, cpus, memory, time);
    forall i | 0 <= i < |options|
      ensures StartsWith(options[i], Sbatch)
    {
      assert options[i][..|Sbatch|] == Sbatch;
    }
  }

  /** With single-line settings no line of the script holds a line break. */
  lemma BatchSingleLines(partition: string, cpus: string, memory: string, time: string, command: string)
    requires OneLine(partition) && OneLine(cpus) && OneLine(memory) && OneLine(time) && OneLine(command)
    ensures SingleLines(BatchLines(partition, cpus, memory, time, command))
  {
    var ls := BatchLines(partition, cpus, memory, time, command);
    forall i | 0 <= i < |ls|
      ensures '\n' !in ls[i]
    {
      NewlineFree(ls, i, partition, cpus, memory, time, command);
    }
  }

  /** No line after the options of the sbatch script starts with `#`. */
  lemma BodyLine(body: seq<string>, i: nat, command: string)
    requires body == BatchBody(command) && i < |body|
    ensures body[i] == [] || body[i][0] != '#'
  {
    if i == 6 {
      assert body[i][0] == 's';
    } else if i == 7 {
      assert body[i] == FindOutdir;
      assert body[i][0] == 'o';
    } else if i == 8 {
      assert body[i] == "mv \\$out \\$outdir/slurm.out";
      assert body[i][0] == 'm';
    } else if i == 0 {
    } else if i == 1 {
    } else if i == 2 {
    } else if i == 3 {
    } else if i == 4 {
    } else if i == 5 {
    } else {
      assert i == 9;
    }
  }

  /** Each line of the sbatch script is free of newlines when the settings are. */
  lemma NewlineFree(ls: seq<string>, i: nat, partition: string, cpus: string, memory: string, time: string, command: string)
    requires OneLine(partition) && OneLine(cpus) && OneLine(memory) && OneLine(time) && OneLine(command)
    requires ls == BatchLines(partition, cpus, memory, time, command) && i < |ls|
    ensures '\n' !in ls[i]
  {
    var options := BatchOptions(partition, cpus, memory, time);
    var body := BatchBody(command);
    if i == 0 {
    } else if i < 5 {
      assert ls[i] == options[i - 1];
      if i == 1 {
        NoNewlineConcat("#SBATCH --partition ", partition);
      } else if i == 2 {
        NoNewlineConcat("#SBATCH --cpus-per-task ", cpus);
      } else if i == 3 {
        NoNewlineConcat("#SBATCH --mem ", memory);
      } else {
        NoNewlineConcat("#SBATCH --time ", time);
      }
    } else {
      assert ls[i] == body[i - 5];
      BodyNewlineFree(body, i - 5, command);
    }
  }

  /** Each line after the options of the sbatch script is free of newlines when the command is. */
  lemma BodyNewlineFree(body: seq<string>, j: nat, command: string)
    requires OneLine(command) && body == BatchBody(command) && j < |body|
    ensures '\n' !in body[j]
  {
    if j == 6 {
      NoNewlineConcat("srun ", command);
    } else if j == 7 {
      FindOutdirOneLine();
    } else if j == 8 {
      MoveOneLine();
    } else if j == 5 {
      assert body[j] == "out=slurm-\\$SLURM_JOB_ID.out";
    } else if j == 1 {
      assert body[j] == "echo $PYTHONPATH";
    } else if j == 3 {
      assert body[j] == "set -e";
    } else {
      assert body[j] == "";
    }
  }

  lemma FindOutdirOneLine()
    ensures OneLine(FindOutdir)
  {
    NoNewlineConcat("outdir=\\$(cat \\$out | grep -Po ", "'Output directory is (\\K.+)')");
  }

  lemma MoveOneLine()
    ensures OneLine("mv \\$out \\$outdir/slurm.out")
  {
    NoNewlineConcat("mv \\$out ", "\\$outdir/slurm.out");
  }

  lemma NoNewlineConcat(a: string, b: string)
    requires '\n' !in a && '\n' !in b
    ensures '\n' !in a + b
  {
  }

  /** ASCII whitespace, what `str.strip` removes from ASCII text. */
  predicate IsSpace(c: char) {
    c == ' ' || c == '\t' || c == '\n' || c == '\r' || c as int == 11 || c as int == 12
  }

  /** The number of whitespace characters `s` starts with. */
  function Leading(s: string): (k: nat)
    ensures k <= |s|
    ensures forall j {:trigger IsSpace(s[j])} :: 0 <= j < k ==> IsSpace(s[j])
    ensures k < |s| ==> !IsSpace(s[k])
  {
    if s == [] || !IsSpace(s[0]) then 0 else 1 + Leading(s[1..])
  }

  /** Where the whitespace `s` ends with starts. */
  function Trailing(s: string): (k: nat)
    ensures k <= |s|
    ensures forall j {:trigger IsSpace(s[j])} :: k <= j < |s| ==> IsSpace(s[j])
    ensures k > 0 ==> !IsSpace(s[k - 1])
  {
    if s == [] || !IsSpace(s[|s| - 1]) then |s| else Trailing(s[..|s| - 1])
  }

  /**
   * `s.strip()`: `s` is the stripped text with whitespace before and after
   * it, and the stripped text neither starts nor ends with whitespace.
   */
  function Strip(s: string): (r: string)
    ensures Stripped(s, Leading(s), r)
  {
    var i, j := Leading(s), Trailing(s);
    var r := if j <= i then [] else s[i..j];
    StripShape(s, i, j, r);
    r
  }

  /**
   * `r` is `s` stripped, given the `i` whitespace characters `s` starts
   * with: `s` is those, then `r`, then only whitespace, and `r` neither
   * starts nor ends with whitespace.
   */
  predicate Stripped(s: string, i: nat, r: string) {
    i + |r| <= |s| &&
    s == s[..i] + r + s[i + |r|..] &&
    (forall k {:trigger IsSpace(s[k])} :: i + |r| <= k < |s| ==> IsSpace(s[k])) &&
    (r == [] || (!IsSpace(r[0]) && !IsSpace(r[|r| - 1])))
  }

  /** The stripped text sits between the leading and trailing whitespace. */
  lemma StripShape(s: string, i: nat, j: nat, r: string)
    requires i == Leading(s) && j == Trailing(s)
    requires r == if j <= i then [] else s[i..j]
    ensures Stripped(s, i, r)
  {
    if j <= i {
      StripBlank(s, i, j);
    } else {
      StripText(s, i, j, r);
    }
  }

  /** When the leading whitespace meets the trailing one, `s` is all whitespace. */
  lemma StripBlank(s: string, i: nat, j: nat)
    requires i == Leading(s) && j == Trailing(s) && j <= i
    ensures i <= |s| && s == s[..i] + [] + s[i..]
    ensures forall k {:trigger IsSpace(s[k])} :: i <= k < |s| ==> IsSpace(s[k])
  {
    SliceAround(s, i, i);
  }

  /** Otherwise the text between them starts and ends with a non-space. */
  lemma StripText(s: string, i: nat, j: nat, r: string)
    requires i == Leading(s) && j == Trailing(s) && i < j && j <= |s| && r == s[i..j]
    ensures i + |r| <= |s| && s == s[..i] + r + s[i + |r|..]
    ensures forall k {:trigger IsSpace(s[k])} :: i + |r| <= k < |s| ==> IsSpace(s[k])
    ensures !IsSpace(r[0]) && !IsSpace(r[|r| - 1])
  {
    TextEnds(s, i, j);
    SliceAround(s, i, j);
    assert i + |r| == j;
  }

  lemma TextEnds(s: string, i: nat, j: nat)
    requires i == Leading(s) && j == Trailing(s) && i < j
    ensures j <= |s| && !IsSpace(s[i]) && !IsSpace(s[j - 1])
  {
  }

  /** `s` is what comes before `i`, then `s[i..j]`, then the rest; the middle starts with `s[i]` and ends with `s[j - 1]`. */
  lemma SliceAround(s: string, i: nat, j: nat)
    requires i <= j <= |s|
    ensures s == s[..i] + s[i..j] + s[j..]
    ensures i < j ==> s[i..j][0] == s[i] && s[i..j][j - i - 1] == s[j - 1]
  {
    assert s == s[..i] + s[i..j] + s[j..];
  }

  /** The message of a failed submission: `sbatch`'s error output, stripped. */
  function FailureMessage(stderr: string): string {
    "Sbatch submission failed: " + Strip(stderr)
  }

  /** The mixin's settings and the scripts it has piped into `sbatch`. */
  class BatchScript {
    /** The batch system, None for none. */
    var batch: Option<string>
    var partition: string
    var cpus: string
    var memory: string
    var time: string
    var dryRun: bool
    var top: Option<int>
    /** The scripts given to `sbatch` on its standard input, in order. */
    var submitted: seq<string>

    /** The defaults: no batch system, partition `default`, 4 CPUs, `4g`, one hour, no dry run, no `top`. */
    constructor ()
      ensures batch.None? && partition == "default" && cpus == "4" && memory == "4g" && time == "01:00:00"
      ensures !dryRun && top.None? && submitted == []
    {
      batch, partition, cpus, memory, time := None, "default", "4", "4g", "01:00:00";
      dryRun, top, submitted := false, None, [];
    }

    /** `is_batch`: a batch system was given. */
    function IsBatch(): (b: bool)
      reads this
      ensures b <==> batch.Some?
    {
      batch.Some?
    }

    /** `_init_from_args`: each given, non-empty argument replaces its setting. */
    method InitFromArgs(batchArg: Option<string>, partitionArg: Option<string>, cpusArg: Option<string>,
                        memoryArg: Option<string>, timeArg: Option<string>, dryRunArg: bool, topArg: Option<int>)
      modifies this
      ensures batch == (if batchArg.Some? && batchArg.value != "" then batchArg else old(batch))
      ensures partition == ArgOr(partitionArg, old(partition)) && cpus == ArgOr(cpusArg, old(cpus))
      ensures memory == ArgOr(memoryArg, old(memory)) && time == ArgOr(timeArg, old(time))
      ensures dryRun == dryRunArg && top == (if topArg.Some? then topArg else old(top))
      ensures submitted == old(submitted)
    {
      if batchArg.Some? && batchArg.value != "" {
        batch := batchArg;
      }
      partition := ArgOr(partitionArg, partition);
      cpus := ArgOr(cpusArg, cpus);
      memory := ArgOr(memoryArg, memory);
      time := ArgOr(timeArg, time);
      dryRun := dryRunArg;
      if topArg.Some? {
        top := topArg;
      }
    }

    /**
     * `_submit_job`: in dry-run mode nothing is started; else the script
     * goes to `sbatch`, and a non-zero return code raises RuntimeError
     * carrying the stripped error output.
     */
    method SubmitJob(command: string, returnCode: int, stderr: string) returns (failure: Option<(Error, string)>)
      modifies this
      ensures batch == old(batch) && partition == old(partition) && cpus == old(cpus) && memory == old(memory)
      ensures time == old(time) && dryRun == old(dryRun) && top == old(top)
      ensures submitted == old(submitted) + (if dryRun then [] else [BatchText(partition, cpus, memory, time, command)])
      ensures failure == if dryRun || returnCode == 0 then None else Some((RuntimeError, FailureMessage(stderr)))
    {
      failure := None;
      if !dryRun {
        var script := BatchText(partition, cpus, memory, time, command);
        submitted := submitted + [script];
        if returnCode != 0 {
          failure := Some((RuntimeError, FailureMessage(stderr)));
        }
      }
    }
  }

  // ---------------------------------------------------------------------
  // Job files (submitscript.py)

  /** An object found in the repository: its first catId, tract and patch, and its visits. */
  datatype Group = Group(catId: int, tract: int, patch: string, visits: seq<int>)

  /**
   * The repository and `pfs.datamodel` functions the script relies on:
   * `format_dir` and `format_filename` of the pipeline configuration,
   * `wraparoundNVisit` and `calculatePfsVisitHash`.
   */
  datatype Repo = Repo(formatDir: Identity.ObjectIdentity -> string, formatFilename: Identity.ObjectIdentity -> string,
                       nVisitOf: int -> int, visitHash: seq<int> -> int)

  /** The identity of an object, with the wrapped visit count and the visit hash. */
  function IdentityOf(repo: Repo, objId: int, g: Group): Identity.ObjectIdentity {
    Identity.ObjectIdentity(Some(g.catId), Some(g.tract), Some(g.patch), Some(objId),
                            Some(repo.nVisitOf(|g.visits|)), Some(repo.visitHash(g.visits)))
  }

  /** The option lines of a job file. */
  function JobOptions(partition: string, cpus: string, memory: string, dir: string): seq<string> {
    ["#SBATCH --partition " + partition, "#SBATCH --cpus-per-task " + cpus, "#SBATCH --mem " + memory,
     "#SBATCH --output=" + dir + "/job.out"]
  }

  /** The command of a job file: the run script on the object's configuration file. */
  function JobCommand(configFile: string): string {
    "srun python -m pfs.ga.pipeline." + "scripts.run.runscript --config " + configFile
  }

  /** The lines of a job file as written: the script, then the newline `print` adds. */
  function JobLines(partition: string, cpus: string, memory: string, dir: string, configFile: string): seq<string> {
    ["#!/bin/bash"] + JobOptions(partition, cpus, memory, dir) + ["", JobCommand(configFile), "", ""]
  }

  /** A job file: `job.sh` in the object's configuration directory, and its text. */
  function JobOf(repo: Repo, partition: string, cpus: string, memory: string, objId: int, g: Group): (string, string) {
    var id := IdentityOf(repo, objId, g);
    var dir := repo.formatDir(id);
    (Locator.JoinPath(dir, "job.sh"),
     Lines(JobLines(partition, cpus, memory, dir, Locator.JoinPath(dir, repo.formatFilename(id)))))
  }

  /**
   * With single-line settings a job file reads back as its lines: the four
   * `#SBATCH` lines of the settings, the log in the object's directory, and
   * the run script on the object's configuration file.
   */
  lemma JobFileShape(partition: string, cpus: string, memory: string, dir: string, configFile: string)
    requires OneLine(partition) && OneLine(cpus) && OneLine(memory) && OneLine(dir) && OneLine(configFile)
    ensures var ls := JobLines(partition, cpus, memory, dir, configFile);
      Text.Split(Lines(ls), '\n') == ls &&
      OptionsExactly(ls, JobOptions(partition, cpus, memory, dir)) &&
      ls[4] == "#SBATCH --output=" + dir + "/job.out" && ls[6] == JobCommand(configFile)
  {
    var ls := JobLines(partition, cpus, memory, dir, configFile);
    var options := JobOptions(partition, cpus, memory, dir);
    var body := ["", JobCommand(configFile), "", ""];
    assert JobCommand(configFile)[0] == 's';
    assert "#!/bin/bash"[..2] == "#!";
    forall i | 0 <= i < |options|
      ensures StartsWith(options[i], Sbatch)
    {
      assert options[i][..|Sbatch|] == Sbatch;
    }
    OptionsOnly("#!/bin/bash", options, body);
    assert SingleLines(ls) by {
      forall i | 0 <= i < |ls|
        ensures '\n' !in ls[i]
      {
        JobLineOneLine(ls, i, partition, cpus, memory, dir, configFile);
      }
    }
    Text.JoinThenSplit(ls, '\n');
  }

  lemma CommandOneLine(configFile: string)
    requires OneLine(configFile)
    ensures OneLine(JobCommand(configFile))
  {
    NoNewlineConcat("srun python -m pfs.ga.pipeline.", "scripts.run.runscript --config ");
    NoNewlineConcat("srun python -m pfs.ga.pipeline." + "scripts.run.runscript --config ", configFile);
  }

  /** Each line of a job file is free of newlines when the settings and paths are. */
  lemma JobLineOneLine(ls: seq<string>, i: nat, partition: string, cpus: string, memory: string, dir: string, configFile: string)
    requires OneLine(partition) && OneLine(cpus) && OneLine(memory) && OneLine(dir) && OneLine(configFile)
    requires ls == JobLines(partition, cpus, memory, dir, configFile) && i < |ls|
    ensures '\n' !in ls[i]
  {
    if i == 1 {
      NoNewlineConcat("#SBATCH --partition ", partition);
    } else if i == 2 {
      NoNewlineConcat("#SBATCH --cpus-per-task ", cpus);
    } else if i == 3 {
      NoNewlineConcat("#SBATCH --mem ", memory);
    } else if i == 4 {
      NoNewlineConcat("#SBATCH --output=", dir);
      NoNewlineConcat("#SBATCH --output=" + dir, "/job.out");
    } else if i == 6 {
      CommandOneLine(configFile);
    } else if i == 0 {
      assert ls[i] == "#!/bin/bash";
    } else {
      assert ls[i] == "";
    }
  }

  /** The job file of an object of the repository, with the script's settings. */
  function JobMaker(repo: Repo, partition: string, cpus: string, memory: string): (make: ((int, Group)) -> (string, string))
    ensures forall o: (int, Group) :: make(o) == JobOf(repo, partition, cpus, memory, o.0, o.1)
  {
    (o: (int, Group)) => JobOf(repo, partition, cpus, memory, o.0, o.1)
  }

  /** The files written for the first `k` objects, `make` giving each object's file. */
  function Writes(make: ((int, Group)) -> (string, string), groups: seq<(int, Group)>, k: nat): (w: seq<(string, string)>)
    requires k <= |groups|
    ensures |w| == k
    ensures forall i :: 0 <= i < k ==> w[i] == make(groups[i])
  {
    if k == 0 then [] else Writes(make, groups, k - 1) + [make(groups[k - 1])]
  }

  /** The job files of the first `k` objects, by objId: the paths of the files `make` gives them. */
  predicate JobsOf(make: ((int, Group)) -> (string, string), groups: seq<(int, Group)>, jobFiles: seq<(int, string)>, k: nat) {
    |jobFiles| == k && k <= |groups| &&
    forall i :: 0 <= i < k ==> jobFiles[i] == (groups[i].0, make(groups[i]).0)
  }

  /**
   * The loop of `__create_sbatch_files`: a job file per object until `top`
   * objects are done, and the files written unless in dry-run mode.
   */
  method CreateJobFiles(make: ((int, Group)) -> (string, string), dryRun: bool, top: Option<int>, groups: seq<(int, Group)>)
    returns (jobFiles: seq<(int, string)>, files: seq<(string, string)>)
    ensures JobsOf(make, groups, jobFiles, Taken(|groups|, top))
    ensures files == if dryRun then [] else Writes(make, groups, Taken(|groups|, top))
  {
    jobFiles, files := [], [];
    ghost var n := Taken(|groups|, top);
    var q := 0;
    while q < |groups|
      invariant 0 <= q <= n
      invariant q < |groups| ==> q < n
      invariant JobsOf(make, groups, jobFiles, q)
      invariant files == if dryRun then [] else Writes(make, groups, q)
      decreases |groups| - q
    {
      var job := make(groups[q]);
      if !dryRun {
        files := files + [job];
      }
      jobFiles := jobFiles + [(groups[q].0, job.0)];
      q := q + 1;
      TakenStops(|groups|, top, q);
      if top.Some? && q >= top.value {
        break;
      }
    }
  }

  /** The `sbatch` command for each job file, in order. */
  function SbatchCommands(jobFiles: seq<(int, string)>): (c: seq<string>)
    ensures |c| == |jobFiles|
    ensures forall i :: 0 <= i < |c| ==> c[i] == "sbatch " + jobFiles[i].1
  {
    seq(|jobFiles|, i requires 0 <= i < |jobFiles| => "sbatch " + jobFiles[i].1)
  }

  /** The submit script's settings, the files it has written and the commands it has run. */
  class SubmitScript {
    var partition: string
    var cpus: string
    var memory: string
    var dryRun: bool
    var top: Option<int>
    /** Files written, as (path, content), in order. */
    var written: seq<(string, string)>
    /** Shell commands run, in order. */
    var commands: seq<string>

    /** The defaults: partition `default`, 4 CPUs, `4g`, no dry run, no `top`. */
    constructor ()
      ensures partition == "default" && cpus == "4" && memory == "4g" && !dryRun && top.None?
      ensures written == [] && commands == []
    {
      partition, cpus, memory, dryRun, top := "default", "4", "4g", false, None;
      written, commands := [], [];
    }

    /** `_init_from_args`: each given, non-empty argument replaces its setting. */
    method InitFromArgs(partitionArg: Option<string>, cpusArg: Option<string>, memoryArg: Option<string>,
                        dryRunArg: bool, topArg: Option<int>)
      modifies this
      ensures partition == ArgOr(partitionArg, old(partition)) && cpus == ArgOr(cpusArg, old(cpus))
      ensures memory == ArgOr(memoryArg, old(memory))
      ensures dryRun == dryRunArg && top == (if topArg.Some? then topArg else old(top))
      ensures written == old(written) && commands == old(commands)
    {
      partition := ArgOr(partitionArg, partition);
      cpus := ArgOr(cpusArg, cpus);
      memory := ArgOr(memoryArg, memory);
      dryRun := dryRunArg;
      if topArg.Some? {
        top := topArg;
      }
    }

    /**
     * `__create_sbatch_files`: a job file per object, keyed by objId, until
     * `top` objects are done; the file is written unless in dry-run mode.
     */
    method CreateSbatchFiles(repo: Repo, groups: seq<(int, Group)>) returns (jobFiles: seq<(int, string)>)
      modifies this
      ensures partition == old(partition) && cpus == old(cpus) && memory == old(memory)
      ensures dryRun == old(dryRun) && top == old(top) && commands == old(commands)
      ensures JobsOf(JobMaker(repo, partition, cpus, memory), groups, jobFiles, Taken(|groups|, top))
      ensures written == old(written) + (if dryRun then [] else Writes(JobMaker(repo, partition, cpus, memory), groups, Taken(|groups|, top)))
    {
      var files;
      jobFiles, files := CreateJobFiles(JobMaker(repo, partition, cpus, memory), dryRun, top, groups);
      written := written + files;
    }

    /** `__submit_sbatch_jobs`: `sbatch` on every job file, dry run or not. */
    method SubmitSbatchJobs(jobFiles: seq<(int, string)>)
      modifies this
      ensures partition == old(partition) && cpus == old(cpus) && memory == old(memory)
      ensures dryRun == old(dryRun) && top == old(top) && written == old(written)
      ensures commands == old(commands) + SbatchCommands(jobFiles)
    {
      var run := commands;
      var i := 0;
      while i < |jobFiles|
        modifies {}
        invariant 0 <= i <= |jobFiles|
        invariant run == commands + SbatchCommands(jobFiles[..i])
      {
        assert SbatchCommands(jobFiles[..i + 1]) == SbatchCommands(jobFiles[..i]) + ["sbatch " + jobFiles[i].1];
        run := run + ["sbatch " + jobFiles[i].1];
        i := i + 1;
      }
      assert jobFiles[..i] == jobFiles;
      commands := run;
    }

    /**
     * `run`: nothing when no object matches; else the job files of the
     * first `top` objects, each then given to `sbatch`.
     */
    method Run(repo: Repo, groups: seq<(int, Group)>) returns (jobFiles: seq<(int, string)>)
      modifies this
      ensures partition == old(partition) && cpus == old(cpus) && memory == old(memory)
      ensures dryRun == old(dryRun) && top == old(top)
      ensures groups == [] ==> jobFiles == [] && written == old(written) && commands == old(commands)
      ensures JobsOf(JobMaker(repo, partition, cpus, memory), groups, jobFiles, Taken(|groups|, top))
      ensures written == old(written) + (if dryRun then [] else Writes(JobMaker(repo, partition, cpus, memory), groups, |jobFiles|))
      ensures commands == old(commands) + SbatchCommands(jobFiles)
    {
      if |groups| == 0 {
        return [];
      }
      jobFiles := CreateSbatchFiles(repo, groups);
      SubmitSbatchJobs(jobFiles);
    }
  }

  /**
   * Whatever the dry-run flag, `sbatch` is run once on the path of every job
   * file of the objects taken, in order, so in dry-run mode it is run on
   * files that were never written; with at least one object there is at
   * least one such command.
   */
  lemma DryRunStillSubmits(repo: Repo, partition: string, cpus: string, memory: string, groups: seq<(int, Group)>,
                           top: Option<int>, jobFiles: seq<(int, string)>)
    requires JobsOf(JobMaker(repo, partition, cpus, memory), groups, jobFiles, Taken(|groups|, top))
    ensures |SbatchCommands(jobFiles)| == Taken(|groups|, top)
    ensures |groups| > 0 ==> |SbatchCommands(jobFiles)| >= 1
    ensures forall i :: 0 <= i < |jobFiles| ==>
      SbatchCommands(jobFiles)[i] == "sbatch " + JobOf(repo, partition, cpus, memory, groups[i].0, groups[i].1).0
  {
  }
}
