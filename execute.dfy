/**
 * `executeCode(language, code, input)` of backend/execute.js:11-81: stage the
 * job directory, pick the language, run the container, remove the directory,
 * and normalise the outcome into `{error, output}`. A spawn that throws
 * rejects instead, and skips the removal.
 *
 * `Execute` is the specification: the result and the ordered list of host
 * steps attempted. `ExecuteCode` performs those steps on a `FileSystem`.
 */
module Execute {
  import opened Wrappers
  import opened Paths
  import opened Workspace
  import opened Languages

  /**
   * What `exec` does with the command: it calls back with `error` (and its
   * message), `stdout` and `stderr`, or it throws before any callback when
   * the process cannot be spawned.
   */
  datatype ExecOutcome =
    | Exited(failed: bool, stdout: string, stderr: string, message: string)
    | SpawnThrew(reason: string)

  /** The value `executeCode` resolves to. */
  datatype ExecResult = ExecResult(error: bool, output: string)

  /** How the promise `executeCode` returns settles. */
  datatype Settled = Resolved(value: ExecResult) | Rejected(reason: string)

  /** One submission: the language key, the source text and the optional standard input. */
  datatype Job = Job(language: string, code: string, input: Option<string>)

  /** The host: its platform, the output directory `tmp` beside the module, and `Date.now()`. */
  datatype Host = Host(platform: Platform, outputDir: string, now: nat)

  /** Which host calls throw, and with what message. */
  datatype Faults = Faults(
    makeDirectory: Option<string>,
    writeInput: Option<string>,
    writeSource: Option<string>,
    remove: Option<string>)

  /** The host steps `executeCode` attempts, in order. */
  datatype Step = MakeDirectory(path: string) | WriteFile(path: string, data: string)
                | RunCommand(command: string) | RemoveTree(path: string)

  datatype Run = Run(settled: Settled, steps: seq<Step>)

  /** Staging either reaches `exec` with a command, or throws with a message; `steps` were attempted before. */
  datatype Staging = Staged(steps: seq<Step>, command: string) | Threw(steps: seq<Step>, message: string)

  const InputFile: string := "input.txt"
  const UnsupportedPrefix: string := "Unsupported language: "

  function JobDirOf(host: Host): string {
    JobDir(host.platform, host.outputDir, host.now)
  }

  /** `input || ""`: an absent input and an empty one both stage the empty file. */
  function InputText(input: Option<string>): (text: string)
    ensures input.Some? ==> text == input.value
    ensures input.None? ==> text == ""
  {
    input.GetOr("")
  }

  /** The exec callback's mapping: a failed run reports `stderr || error.message`, a clean run its stdout. */
  function Normalise(o: ExecOutcome): (r: ExecResult)
    requires o.Exited?
    ensures r.error <==> o.failed
    ensures o.failed && o.stderr != "" ==> r.output == o.stderr
    ensures o.failed && o.stderr == "" ==> r.output == o.message
    ensures !o.failed ==> r.output == o.stdout
  {
    if o.failed then ExecResult(true, if o.stderr != "" then o.stderr else o.message)
    else ExecResult(false, o.stdout)
  }

  /** Steps that only create directories and write files. */
  predicate OnlyCreates(steps: seq<Step>) {
    forall i :: 0 <= i < |steps| ==> steps[i].MakeDirectory? || steps[i].WriteFile?
  }

  /** The `try` block up to `exec`: mkdir, write input, select the language, write the source. */
  function Stage(host: Host, job: Job, faults: Faults): (r: Staging)
    ensures 1 <= |r.steps| <= 3 && r.steps[0] == MakeDirectory(JobDirOf(host))
    ensures OnlyCreates(r.steps)
    ensures r.Staged? <==>
      faults.makeDirectory.None? && faults.writeInput.None? && faults.writeSource.None? &&
      ParseLanguage(job.language).Some?
  {
    var dir := JobDirOf(host);
    var made := MakeDirectory(dir);
    if faults.makeDirectory.Some? then Threw([made], faults.makeDirectory.value)
    else
      var input := WriteFile(Join(host.platform, dir, InputFile), InputText(job.input));
      if faults.writeInput.Some? then Threw([made, input], faults.writeInput.value)
      else
        match ParseLanguage(job.language)
        case None => Threw([made, input], UnsupportedPrefix + job.language)
        case Some(lang) =>
          var source := WriteFile(Join(host.platform, dir, SourceFileName(lang, job.code)), job.code);
          if faults.writeSource.Some? then Threw([made, input, source], faults.writeSource.value)
          else Staged([made, input, source], Command(lang, job.code, ToForwardSlashes(dir)))
  }

  /**
   * The whole job. A staged command is run and the directory removed in the
   * callback; a staging throw is caught and the directory removed. A spawn
   * that throws rejects the returned promise, which is not awaited inside the
   * `try`, so the `catch` and its removal are skipped.
   */
  function Execute(host: Host, job: Job, faults: Faults, outcome: ExecOutcome): (r: Run)
    ensures 2 <= |r.steps| && r.steps[0] == MakeDirectory(JobDirOf(host))
    ensures r.settled.Rejected? <==> Stage(host, job, faults).Staged? && outcome.SpawnThrew?
    ensures r.settled.Resolved? ==> r.steps[|r.steps| - 1] == RemoveTree(JobDirOf(host))
    ensures r.settled.Rejected? ==> r.steps[|r.steps| - 1].RunCommand?
    ensures forall i :: 0 <= i < |r.steps| - 1 ==> !r.steps[i].RemoveTree?
  {
    var dir := JobDirOf(host);
    match Stage(host, job, faults)
    case Staged(steps, command) =>
      if outcome.SpawnThrew? then Run(Rejected(outcome.reason), steps + [RunCommand(command)])
      else Run(Resolved(Normalise(outcome)), steps + [RunCommand(command), RemoveTree(dir)])
    case Threw(steps, message) => Run(Resolved(ExecResult(true, message)), steps + [RemoveTree(dir)])
  }

  /** A failed removal is swallowed: it never changes what the caller receives. */
  lemma RemovalFaultNeverChangesResult(host: Host, job: Job, faults: Faults, outcome: ExecOutcome, removal: Option<string>)
    ensures Execute(host, job, faults, outcome) == Execute(host, job, faults.(remove := removal), outcome)
  {
  }

  /**
   * A supported language with no staging fault, whose container is spawned:
   * the directory, `input.txt`, the source file with exactly `code`, the
   * container run, and removal, in that order; the result is the normalised
   * exec outcome.
   */
  lemma SupportedLanguageRuns(host: Host, job: Job, faults: Faults, outcome: ExecOutcome)
    requires ParseLanguage(job.language).Some? && outcome.Exited?
    requires faults.makeDirectory.None? && faults.writeInput.None? && faults.writeSource.None?
    ensures var dir, lang := JobDirOf(host), ParseLanguage(job.language).value;
      Execute(host, job, faults, outcome) == Run(Resolved(Normalise(outcome)), [
        MakeDirectory(dir),
        WriteFile(Join(host.platform, dir, InputFile), InputText(job.input)),
        WriteFile(Join(host.platform, dir, SourceFileName(lang, job.code)), job.code),
        RunCommand(Command(lang, job.code, ToForwardSlashes(dir))),
        RemoveTree(dir)])
  {
  }

  /** A spawn that throws rejects the promise with its message, after staging, and the directory stays. */
  lemma SpawnFailureRejects(host: Host, job: Job, faults: Faults, outcome: ExecOutcome)
    requires ParseLanguage(job.language).Some? && outcome.SpawnThrew?
    requires faults.makeDirectory.None? && faults.writeInput.None? && faults.writeSource.None?
    ensures var dir, lang := JobDirOf(host), ParseLanguage(job.language).value;
      Execute(host, job, faults, outcome) == Run(Rejected(outcome.reason), [
        MakeDirectory(dir),
        WriteFile(Join(host.platform, dir, InputFile), InputText(job.input)),
        WriteFile(Join(host.platform, dir, SourceFileName(lang, job.code)), job.code),
        RunCommand(Command(lang, job.code, ToForwardSlashes(dir)))])
  {
  }

  /**
   * An unsupported language is noticed only after the directory and
   * `input.txt` were written; the directory is then removed and the error
   * names the language.
   */
  lemma UnsupportedLanguageAfterStagingInput(host: Host, job: Job, faults: Faults, outcome: ExecOutcome)
    requires ParseLanguage(job.language).None?
    requires faults.makeDirectory.None? && faults.writeInput.None?
    ensures var dir := JobDirOf(host);
      Execute(host, job, faults, outcome) == Run(Resolved(ExecResult(true, UnsupportedPrefix + job.language)), [
        MakeDirectory(dir),
        WriteFile(Join(host.platform, dir, InputFile), InputText(job.input)),
        RemoveTree(dir)])
  {
  }

  /** A staging call that throws ends the job with that call's message, after removal, and nothing runs. */
  lemma StagingFaultIsReported(host: Host, job: Job, faults: Faults, outcome: ExecOutcome)
    requires faults.makeDirectory.Some? || faults.writeInput.Some? ||
             (faults.writeSource.Some? && ParseLanguage(job.language).Some?)
    ensures var r := Execute(host, job, faults, outcome);
      && r.settled == Resolved(ExecResult(true,
           if faults.makeDirectory.Some? then faults.makeDirectory.value
           else if faults.writeInput.Some? then faults.writeInput.value
           else faults.writeSource.value))
      && forall i :: 0 <= i < |r.steps| ==> !r.steps[i].RunCommand?
  {
  }

  /** The container is started at most once: just before the removal, or last when spawning threw. */
  lemma RunIsNextToLast(host: Host, job: Job, faults: Faults, outcome: ExecOutcome, i: nat)
    requires i < |Execute(host, job, faults, outcome).steps|
    requires Execute(host, job, faults, outcome).steps[i].RunCommand?
    ensures var r := Execute(host, job, faults, outcome);
      && (r.settled.Resolved? ==> i == |r.steps| - 2)
      && (r.settled.Rejected? ==> i == |r.steps| - 1)
  {
    var r, staged := Execute(host, job, faults, outcome), Stage(host, job, faults).steps;
    assert |staged| < |r.steps| && forall k :: 0 <= k < |staged| ==> r.steps[k] == staged[k];
  }

  /** The source write once `input.txt` is in place: nothing for an unsupported language or a failed write. */
  function SourceStaged(host: Host, job: Job, faults: Faults, m: map<string, Entry>): map<string, Entry> {
    match ParseLanguage(job.language)
    case None => m
    case Some(lang) =>
      if faults.writeSource.Some? then m
      else m[Join(host.platform, JobDirOf(host), SourceFileName(lang, job.code)) := File(job.code)]
  }

  /** The host filesystem after staging from `m`: each call that succeeds takes effect, in order. */
  function StagedEntries(host: Host, job: Job, faults: Faults, m: map<string, Entry>): map<string, Entry> {
    var dir := JobDirOf(host);
    if faults.makeDirectory.Some? then m
    else
      var made := MadeDirectory(host.platform, m, dir);
      if faults.writeInput.Some? then made
      else SourceStaged(host, job, faults, made[Join(host.platform, dir, InputFile) := File(InputText(job.input))])
  }

  /**
   * The host filesystem when the job settles: the staged one, with the job
   * directory removed unless the removal failed or was never reached.
   */
  function FinalEntries(host: Host, job: Job, faults: Faults, outcome: ExecOutcome, m: map<string, Entry>): map<string, Entry> {
    var staged := StagedEntries(host, job, faults, m);
    if Execute(host, job, faults, outcome).settled.Rejected? || faults.remove.Some? then staged
    else Outside(host.platform, staged, JobDirOf(host))
  }

  /** The files the container finds staged: the job directory, `input.txt` and the source file. */
  ghost predicate StagedFor(host: Host, job: Job, entries: map<string, Entry>)
    requires ParseLanguage(job.language).Some?
  {
    var dir, lang := JobDirOf(host), ParseLanguage(job.language).value;
    var inputPath := Join(host.platform, dir, InputFile);
    var sourcePath := Join(host.platform, dir, SourceFileName(lang, job.code));
    && dir in entries
    && inputPath in entries && entries[inputPath] == File(InputText(job.input))
    && sourcePath in entries && entries[sourcePath] == File(job.code)
  }

  /** A successful mkdir leaves the job directory in place, whatever fails after it. */
  lemma JobDirectoryExistsAfterMkdir(host: Host, job: Job, faults: Faults, m: map<string, Entry>)
    requires faults.makeDirectory.None?
    ensures JobDirOf(host) in StagedEntries(host, job, faults, m)
  {
    var dir, p := JobDirOf(host), host.platform;
    var inputPath := Join(p, dir, InputFile);
    assert |inputPath| > |dir|;
    match ParseLanguage(job.language)
    case None =>
    case Some(lang) =>
      assert |Join(p, dir, SourceFileName(lang, job.code))| > |dir|;
  }

  /** When staging reaches `exec`, the container finds the directory, `input.txt` and the source in place. */
  lemma StagedFilesInPlace(host: Host, job: Job, faults: Faults, m: map<string, Entry>)
    requires Stage(host, job, faults).Staged?
    ensures StagedFor(host, job, StagedEntries(host, job, faults, m))
  {
    var dir, p, lang := JobDirOf(host), host.platform, ParseLanguage(job.language).value;
    var inputPath, sourcePath := Join(p, dir, InputFile), Join(p, dir, SourceFileName(lang, job.code));
    SourceFileIsNotInputFile(lang, job.code);
    JoinDistinctNames(p, dir, InputFile, SourceFileName(lang, job.code));
    var made := MadeDirectory(p, m, dir);
    assert dir in made;
    var withInput := made[inputPath := File(InputText(job.input))];
    assert faults.makeDirectory.None? && faults.writeInput.None? && faults.writeSource.None?;
    assert StagedEntries(host, job, faults, m) == SourceStaged(host, job, faults, withInput);
    assert SourceStaged(host, job, faults, withInput) == withInput[sourcePath := File(job.code)];
  }

  /**
   * Staging changes nothing outside the job directory, except that the
   * recursive mkdir may create missing ancestors of it as directories.
   */
  lemma StagingStaysInJobDirectory(host: Host, job: Job, faults: Faults, m: map<string, Entry>, path: string)
    requires !Within(host.platform, path, JobDirOf(host))
    ensures var staged := StagedEntries(host, job, faults, m);
      && (path in m ==> path in staged && staged[path] == m[path])
      && (path in staged && path !in m ==> path in Ancestors(host.platform, JobDirOf(host)) && staged[path] == Directory)
  {
    var dir, p := JobDirOf(host), host.platform;
    var staged := StagedEntries(host, job, faults, m);
    if faults.makeDirectory.None? {
      var made := MadeDirectory(p, m, dir);
      assert path in m ==> path in made && made[path] == m[path];
      assert path in made && path !in m ==> path in Ancestors(p, dir) && made[path] == Directory;
      if faults.writeInput.None? {
        var inputPath := Join(p, dir, InputFile);
        JoinIsWithin(p, dir, InputFile);
        var withInput := made[inputPath := File(InputText(job.input))];
        assert staged == SourceStaged(host, job, faults, withInput);
        assert path in withInput <==> path in made;
        assert path in made ==> withInput[path] == made[path];
        match ParseLanguage(job.language)
        case None =>
        case Some(lang) =>
          var sourcePath := Join(p, dir, SourceFileName(lang, job.code));
          if faults.writeSource.None? {
            JoinIsWithin(p, dir, SourceFileName(lang, job.code));
            assert path != sourcePath;
            assert staged == withInput[sourcePath := File(job.code)];
          } else {
            assert staged == withInput;
          }
      } else {
        assert staged == made;
      }
    }
  }

  /**
   * A job whose removal succeeds leaves nothing inside its directory, and
   * when the output directory and its ancestors exist beforehand it leaves
   * the filesystem exactly as it found it.
   */
  lemma CleanupRestoresHost(host: Host, job: Job, faults: Faults, outcome: ExecOutcome, m: map<string, Entry>)
    requires Execute(host, job, faults, outcome).settled.Resolved? && faults.remove.None?
    requires forall a :: a in Ancestors(host.platform, JobDirOf(host)) ==> a in m
    ensures FinalEntries(host, job, faults, outcome, m) == Outside(host.platform, m, JobDirOf(host))
  {
    var dir, p := JobDirOf(host), host.platform;
    var staged := StagedEntries(host, job, faults, m);
    forall path | !Within(p, path, dir)
      ensures path in staged <==> path in m
      ensures path in m ==> staged[path] == m[path]
    {
      StagingStaysInJobDirectory(host, job, faults, m, path);
    }
    assert Outside(p, staged, dir) == Outside(p, m, dir);
  }

  /**
   * `executeCode` on a host filesystem, up to `exec`: performs exactly the
   * specified staging.
   */
  method StageJob(fs: FileSystem, host: Host, job: Job, faults: Faults) returns (staging: Staging)
    requires fs.platform == host.platform
    modifies fs
    ensures staging == Stage(host, job, faults)
    ensures fs.entries == StagedEntries(host, job, faults, old(fs.entries))
  {
    var dir := JobDirOf(host);
    var inputPath := Join(host.platform, dir, InputFile);
    var err := fs.MakeDirectory(dir, faults.makeDirectory);
    if err.Some? {
      return Threw([MakeDirectory(dir)], err.value);
    }
    err := fs.WriteFile(inputPath, InputText(job.input), faults.writeInput);
    var steps := [MakeDirectory(dir), WriteFile(inputPath, InputText(job.input))];
    if err.Some? {
      return Threw(steps, err.value);
    }
    staging := StageSource(fs, host, job, faults);
  }

  /**
   * The rest of the `try` block once `input.txt` is written: the language
   * lookup, the source file and the command.
   */
  method StageSource(fs: FileSystem, host: Host, job: Job, faults: Faults) returns (staging: Staging)
    requires fs.platform == host.platform
    requires faults.makeDirectory.None? && faults.writeInput.None?
    modifies fs
    ensures staging == Stage(host, job, faults)
    ensures fs.entries == SourceStaged(host, job, faults, old(fs.entries))
  {
    var dir := JobDirOf(host);
    var volumePath := ToForwardSlashes(dir);
    var made, input := MakeDirectory(dir), WriteFile(Join(host.platform, dir, InputFile), InputText(job.input));
    match ParseLanguage(job.language) {
      case None =>
        staging := Threw([made, input], UnsupportedPrefix + job.language);
      case Some(lang) =>
        var sourcePath := Join(host.platform, dir, SourceFileName(lang, job.code));
        var err := fs.WriteFile(sourcePath, job.code, faults.writeSource);
        var written := [made, input, WriteFile(sourcePath, job.code)];
        if err.Some? {
          staging := Threw(written, err.value);
        } else {
          staging := Staged(written, Command(lang, job.code, volumePath));
        }
    }
  }

  /**
   * `executeCode` on a host filesystem: the specified steps and outcome, and
   * the specified filesystem when it settles. `atRun` is the filesystem as
   * the container sees it when `exec` starts.
   */
  method ExecuteCode(fs: FileSystem, host: Host, job: Job, faults: Faults, outcome: ExecOutcome)
    returns (settled: Settled, steps: seq<Step>, ghost atRun: map<string, Entry>)
    requires fs.platform == host.platform
    modifies fs
    ensures Run(settled, steps) == Execute(host, job, faults, outcome)
    ensures atRun == StagedEntries(host, job, faults, old(fs.entries))
    ensures fs.entries == FinalEntries(host, job, faults, outcome, old(fs.entries))
  {
    var dir := JobDirOf(host);
    var staging := StageJob(fs, host, job, faults);
    atRun := fs.entries;
    match staging {
      case Staged(staged, command) =>
        if outcome.SpawnThrew? {
          return Rejected(outcome.reason), staged + [RunCommand(command)], atRun;
        }
        settled, steps := Resolved(Normalise(outcome)), staged + [RunCommand(command), RemoveTree(dir)];
      case Threw(staged, message) =>
        settled, steps := Resolved(ExecResult(true, message)), staged + [RemoveTree(dir)];
    }
    var _ := fs.RemoveTree(dir, faults.remove);
  }
}
