/**
 * The save-cache step: turning the raw inputs into a configuration
 * (blank-key check, split of the path list, absolutise-and-exist filter),
 * evaluating the cache key, building the archive and sequencing the stages
 * of a run.
 */
module Step {
  import opened Wrappers
  import opened Strings
  import opened TimeFormat
  import FilePath
  import Env
  import opened Exec
  import Compression

  const EmptyKeyMessage := "cache key should not be empty"
  const KeyErrorPrefix := "failed to evaluate key template: "
  const CompressionErrorPrefix := "compression failed: "
  const PathSeparator: char := '\n'
  const TempDirPrefix := "save-cache"
  const ArchivePrefix := "cache-"
  const ArchiveExtension := ".tzst"
  const WorkflowIdVar := "BITRISE_TRIGGERED_WORKFLOW_ID"
  const BranchVar := "BITRISE_GIT_BRANCH"
  const CommitVar := "BITRISE_GIT_COMMIT"

  /** The step inputs as the input parser delivers them. */
  datatype Input = Input(verbose: bool, key: string, paths: string)

  /** The processed configuration: the key untouched and the surviving absolute paths. */
  datatype Config = Config(verbose: bool, key: string, paths: seq<string>)

  /** The values a key template may refer to. */
  datatype BuildContext = BuildContext(workflow: string, branch: string, commitHash: string)

  /** The warning logged for an entry of the path list that is skipped. */
  datatype Warning =
    | PathParseFailed(path: string, reason: string)
    | PathMissing(path: string)

  /**
   * The step and its collaborators. Each collaborator is the answer it gives
   * during one run: the parsed inputs (or the parse error), the path
   * absolutiser, the existence check (an error while checking counts as
   * "does not exist"), the temporary-directory provider, the environment,
   * the key-template evaluator (built over the environment, so it is given
   * the environment as well as the build context), the command runner and the archive size lookup.
   */
  datatype SaveCacheStep = SaveCacheStep(
    inputParser: Result<Input, string>,
    absPath: string -> Result<string, string>,
    pathExists: string -> bool,
    createTempDir: string -> Result<string, string>,
    env: map<string, string>,
    evaluate: (string, BuildContext, map<string, string>) -> Result<string, string>,
    runCommand: Runner,
    stat: string -> Result<nat, string>)

  // ---------------------------------------------------------------------------
  // Configuration processing

  /** An entry survives when it can be made absolute and the absolute path exists. */
  predicate Kept(line: string, absPath: string -> Result<string, string>, pathExists: string -> bool)
  {
    absPath(line).Success? && pathExists(absPath(line).value)
  }

  /** The absolute paths of the surviving entries, in input order. */
  function KeptPaths(lines: seq<string>, absPath: string -> Result<string, string>, pathExists: string -> bool): (kept: seq<string>)
    ensures |kept| <= |lines|
    ensures forall k :: 0 <= k < |kept| ==> pathExists(kept[k])
    decreases |lines|
  {
    if lines == [] then []
    else
      var last := lines[|lines| - 1];
      KeptPaths(lines[..|lines| - 1], absPath, pathExists) +
      (if Kept(last, absPath, pathExists) then [absPath(last).value] else [])
  }

  /** The warning an entry draws, if it is skipped. */
  function SkipWarning(line: string, absPath: string -> Result<string, string>, pathExists: string -> bool): Option<Warning>
  {
    match absPath(line)
    case Failure(reason) => Some(PathParseFailed(line, reason))
    case Success(abs) => if pathExists(abs) then None else Some(PathMissing(line))
  }

  /** The warnings for the skipped entries, in input order. */
  function SkipWarnings(lines: seq<string>, absPath: string -> Result<string, string>, pathExists: string -> bool): seq<Warning>
    decreases |lines|
  {
    if lines == [] then []
    else
      var w := SkipWarning(lines[|lines| - 1], absPath, pathExists);
      SkipWarnings(lines[..|lines| - 1], absPath, pathExists) + (if w.Some? then [w.value] else [])
  }

  /** Extending the handled prefix by one entry adds that entry's path or warning. */
  lemma FilterOneMore(lines: seq<string>, i: nat, absPath: string -> Result<string, string>, pathExists: string -> bool)
    requires i < |lines|
    ensures KeptPaths(lines[..i + 1], absPath, pathExists) ==
              KeptPaths(lines[..i], absPath, pathExists) + (if Kept(lines[i], absPath, pathExists) then [absPath(lines[i]).value] else [])
    ensures var w := SkipWarning(lines[i], absPath, pathExists);
            SkipWarnings(lines[..i + 1], absPath, pathExists) == SkipWarnings(lines[..i], absPath, pathExists) + (if w.Some? then [w.value] else [])
  {
    assert lines[..i + 1][..i] == lines[..i];
  }

  /**
   * `ProcessConfig`: a parse error is returned as is; a key that is blank
   * after trimming is rejected before the paths are looked at; otherwise the
   * path list is split on newlines and every entry that cannot be made
   * absolute or does not exist is skipped with a warning, never an error.
   * Verbose flag and key are copied unchanged (the key is not trimmed).
   */
  method ProcessConfig(step: SaveCacheStep) returns (result: Result<Config, string>, warnings: seq<Warning>)
    ensures step.inputParser.Failure? ==> result == Failure(step.inputParser.error) && warnings == []
    ensures step.inputParser.Success? && TrimSpace(step.inputParser.value.key) == [] ==>
              result == Failure(EmptyKeyMessage) && warnings == []
    ensures step.inputParser.Success? && TrimSpace(step.inputParser.value.key) != [] ==>
              var input := step.inputParser.value;
              var lines := Split(input.paths, PathSeparator);
              result == Success(Config(input.verbose, input.key, KeptPaths(lines, step.absPath, step.pathExists))) &&
              warnings == SkipWarnings(lines, step.absPath, step.pathExists)
  {
    warnings := [];
    if step.inputParser.Failure? {
      return Failure(step.inputParser.error), warnings;
    }
    var input := step.inputParser.value;
    if TrimSpace(input.key) == [] {
      return Failure(EmptyKeyMessage), warnings;
    }

    var finalPaths: seq<string> := [];
    var pathSlice := Split(input.paths, PathSeparator);
    for i := 0 to |pathSlice|
      invariant finalPaths == KeptPaths(pathSlice[..i], step.absPath, step.pathExists)
      invariant warnings == SkipWarnings(pathSlice[..i], step.absPath, step.pathExists)
    {
      var path := pathSlice[i];
      FilterOneMore(pathSlice, i, step.absPath, step.pathExists);
      var absPath := step.absPath(path);
      if absPath.Failure? {
        warnings := warnings + [PathParseFailed(path, absPath.error)];
        continue;
      }
      if !step.pathExists(absPath.value) {
        warnings := warnings + [PathMissing(path)];
        continue;
      }
      finalPaths := finalPaths + [absPath.value];
    }
    assert pathSlice[..|pathSlice|] == pathSlice;
    result := Success(Config(input.verbose, input.key, finalPaths));
  }

  /**
   * The positions of the surviving entries: each kept path is the absolute
   * form of the entry at the matching position, the positions increase, and
   * every surviving entry's position is among them.
   */
  ghost function KeptIndices(lines: seq<string>, absPath: string -> Result<string, string>, pathExists: string -> bool): seq<nat>
    decreases |lines|
  {
    if lines == [] then []
    else
      KeptIndices(lines[..|lines| - 1], absPath, pathExists) +
      (if Kept(lines[|lines| - 1], absPath, pathExists) then [|lines| - 1] else [])
  }

  lemma {:induction false} KeptPathsAreOrderedSelection(lines: seq<string>, absPath: string -> Result<string, string>, pathExists: string -> bool)
    ensures var idx, kept := KeptIndices(lines, absPath, pathExists), KeptPaths(lines, absPath, pathExists);
            |idx| == |kept| &&
            (forall k :: 0 <= k < |idx| ==>
               idx[k] < |lines| && Kept(lines[idx[k]], absPath, pathExists) &&
               kept[k] == absPath(lines[idx[k]]).value) &&
            (forall k, m :: 0 <= k < m < |idx| ==> idx[k] < idx[m]) &&
            (forall i :: 0 <= i < |lines| && Kept(lines[i], absPath, pathExists) ==> i in idx)
    decreases |lines|
  {
    if lines != [] {
      var n := |lines| - 1;
      var init := lines[..n];
      KeptPathsAreOrderedSelection(init, absPath, pathExists);
      forall k | 0 <= k < n ensures init[k] == lines[k] { }
    }
  }

  /** Filtering distributes over concatenation: an entry's fate does not depend on its neighbours. */
  lemma {:induction false} KeptPathsAppend(a: seq<string>, b: seq<string>, absPath: string -> Result<string, string>, pathExists: string -> bool)
    ensures KeptPaths(a + b, absPath, pathExists) == KeptPaths(a, absPath, pathExists) + KeptPaths(b, absPath, pathExists)
    decreases |b|
  {
    if b == [] {
      assert a + b == a;
    } else {
      var n := |b| - 1;
      assert (a + b)[..|a + b| - 1] == a + b[..n];
      KeptPathsAppend(a, b[..n], absPath, pathExists);
    }
  }

  /** A skipped entry (bad path or missing path) removes only itself from the result. */
  lemma SkippedEntryIsDropped(before: seq<string>, line: string, after: seq<string>, absPath: string -> Result<string, string>, pathExists: string -> bool)
    requires !Kept(line, absPath, pathExists)
    ensures KeptPaths(before + [line] + after, absPath, pathExists) == KeptPaths(before + after, absPath, pathExists)
  {
    KeptPathsAppend(before + [line], after, absPath, pathExists);
    KeptPathsAppend(before, [line], absPath, pathExists);
    KeptPathsAppend(before, after, absPath, pathExists);
    assert [line][..0] == [];
  }

  /** The number of kept entries and the number of warnings add up to the number of entries. */
  lemma {:induction false} KeptOrWarned(lines: seq<string>, absPath: string -> Result<string, string>, pathExists: string -> bool)
    ensures |KeptPaths(lines, absPath, pathExists)| + |SkipWarnings(lines, absPath, pathExists)| == |lines|
    decreases |lines|
  {
    if lines != [] {
      KeptOrWarned(lines[..|lines| - 1], absPath, pathExists);
    }
  }

  /** An entry draws a warning exactly when it is not kept: never both and never neither. */
  lemma SkipWarningIffNotKept(line: string, absPath: string -> Result<string, string>, pathExists: string -> bool)
    ensures SkipWarning(line, absPath, pathExists).Some? <==> !Kept(line, absPath, pathExists)
  {
  }

  // ---------------------------------------------------------------------------
  // Key evaluation

  /** The build context read from the environment; an unset variable reads as "". */
  function BuildContextOf(env: map<string, string>): (ctx: BuildContext)
    ensures WorkflowIdVar in env ==> ctx.workflow == env[WorkflowIdVar]
    ensures WorkflowIdVar !in env ==> ctx.workflow == ""
    ensures BranchVar in env ==> ctx.branch == env[BranchVar]
    ensures BranchVar !in env ==> ctx.branch == ""
    ensures CommitVar in env ==> ctx.commitHash == env[CommitVar]
    ensures CommitVar !in env ==> ctx.commitHash == ""
  {
    BuildContext(Env.Get(env, WorkflowIdVar), Env.Get(env, BranchVar), Env.Get(env, CommitVar))
  }

  /** The build context depends on the environment only through its three variables. */
  lemma BuildContextReadsOnlyItsVariables(env1: map<string, string>, env2: map<string, string>)
    requires Env.Get(env1, WorkflowIdVar) == Env.Get(env2, WorkflowIdVar)
    requires Env.Get(env1, BranchVar) == Env.Get(env2, BranchVar)
    requires Env.Get(env1, CommitVar) == Env.Get(env2, CommitVar)
    ensures BuildContextOf(env1) == BuildContextOf(env2)
  {
  }

  /**
   * `evaluateKey`: the evaluator, built over the environment, is asked for
   * the template against the build context read from the workflow id,
   * branch and commit variables.
   */
  function EvaluateKey(step: SaveCacheStep, keyTemplate: string): (r: Result<string, string>)
    ensures var ctx := BuildContext(Env.Get(step.env, WorkflowIdVar), Env.Get(step.env, BranchVar), Env.Get(step.env, CommitVar));
            r == step.evaluate(keyTemplate, ctx, step.env)
  {
    step.evaluate(keyTemplate, BuildContextOf(step.env), step.env)
  }

  // ---------------------------------------------------------------------------
  // Archive creation

  /** The archive file name for the UTC time `now`: "cache-YYYYMMDD-HHMMSS.tzst". */
  function ArchiveFileName(now: Timestamp): (name: string)
    ensures FilePath.Separator !in name
  {
    var name := ArchivePrefix + FormatStamp(now) + ArchiveExtension;
    assert forall i :: 0 <= i < |FormatStamp(now)| ==> FormatStamp(now)[i] == '-' || IsDigit(FormatStamp(now)[i]);
    name
  }

  /** Reads the time back out of an archive file name. */
  function ParseArchiveFileName(name: string): Option<Timestamp>
  {
    if |name| == 26 && name[..6] == ArchivePrefix && name[21..] == ArchiveExtension
    then ParseStamp(name[6..21])
    else None
  }

  /** The archive name records the time it was made, to the second. */
  lemma ArchiveFileNameRoundTrip(now: Timestamp)
    requires now.Valid() && now.year < 10000
    ensures ParseArchiveFileName(ArchiveFileName(now)) == Some(now)
  {
    StampRoundTrip(now);
    var name := ArchiveFileName(now);
    assert name[..6] == ArchivePrefix && name[6..21] == FormatStamp(now) && name[21..] == ArchiveExtension;
  }

  /** Runs started at different seconds name their archives differently. */
  lemma ArchiveFileNameInjective(t1: Timestamp, t2: Timestamp)
    requires t1.Valid() && t1.year < 10000 && t2.Valid() && t2.year < 10000
    requires ArchiveFileName(t1) == ArchiveFileName(t2)
    ensures t1 == t2
  {
    ArchiveFileNameRoundTrip(t1);
    ArchiveFileNameRoundTrip(t2);
  }

  /** What `compress` did: the tar command it ran, if it got that far, and its result. */
  datatype CompressOutcome = CompressOutcome(invoked: Option<Command>, result: Result<string, string>)

  /**
   * `compress`: the archive goes into a fresh temporary directory, named after
   * the current time; a failure to create the directory is returned before
   * tar runs; a failure of tar is returned as is; otherwise the archive path.
   */
  function CompressArchive(step: SaveCacheStep, paths: seq<string>, now: Timestamp): (o: CompressOutcome)
    ensures step.createTempDir(TempDirPrefix).Failure? ==>
              o == CompressOutcome(None, Failure(step.createTempDir(TempDirPrefix).error))
    ensures step.createTempDir(TempDirPrefix).Success? ==>
              var archivePath := FilePath.Join(step.createTempDir(TempDirPrefix).value, ArchiveFileName(now));
              o.invoked == Some(Compression.TarCommand(archivePath, paths, step.env)) &&
              (o.result.Success? <==> step.runCommand(o.invoked.value).Success?) &&
              (o.result.Success? ==> o.result.value == archivePath) &&
              (o.result.Failure? ==> o.result.error == step.runCommand(o.invoked.value).error.err)
    ensures o.result.Success? ==> FilePath.LastElement(o.result.value) == ArchiveFileName(now)
  {
    var fileName := ArchiveFileName(now);
    match step.createTempDir(TempDirPrefix)
    case Failure(err) => CompressOutcome(None, Failure(err))
    case Success(tempDir) =>
      var archivePath := FilePath.Join(tempDir, fileName);
      var cmd := Compression.TarCommand(archivePath, paths, step.env);
      FilePath.LastElementOfJoin(tempDir, fileName);
      match step.runCommand(cmd)
      case Failure(failure) => CompressOutcome(Some(cmd), Failure(failure.err))
      case Success(_) => CompressOutcome(Some(cmd), Success(archivePath))
  }

  // ---------------------------------------------------------------------------
  // Run

  datatype Stage = EvaluateKeyStage | CompressStage | StatStage

  const AllStages: seq<Stage> := [EvaluateKeyStage, CompressStage, StatStage]

  /** The error a run ends with, by the stage that failed. */
  datatype RunError =
    | KeyEvaluationFailed(reason: string)
    | CompressionFailed(reason: string)
    | StatFailed(reason: string)
  {
    function FailedStage(): Stage
    {
      match this
      case KeyEvaluationFailed(_) => EvaluateKeyStage
      case CompressionFailed(_) => CompressStage
      case StatFailed(_) => StatStage
    }

    /**
     * The text of the error `Run` returns: the underlying error wrapped with
     * the stage's prefix, except a stat error, which is returned unwrapped.
     */
    function Message(): (m: string)
      ensures |m| >= |reason| && m[|m| - |reason|..] == reason
      ensures KeyEvaluationFailed? ==> m[..|m| - |reason|] == KeyErrorPrefix
      ensures CompressionFailed? ==> m[..|m| - |reason|] == CompressionErrorPrefix
      ensures StatFailed? ==> m == reason
    {
      match this
      case KeyEvaluationFailed(reason) => KeyErrorPrefix + reason
      case CompressionFailed(reason) => CompressionErrorPrefix + reason
      case StatFailed(reason) => reason
    }
  }

  /** The values a successful run reports: the evaluated key, the archive and its size. */
  datatype RunReport = RunReport(evaluatedKey: string, archivePath: string, archiveSize: nat)

  /** The stages a run entered, in order, and how it ended. */
  datatype RunOutcome = RunOutcome(attempted: seq<Stage>, result: Result<RunReport, RunError>)

  /**
   * The stage sequencing of `Run`, given what each stage yields: the key
   * evaluation, the compression, and the size lookup for an archive path.
   * The first failing stage ends the run with its own error.
   */
  function RunStages(key: Result<string, string>, archive: Result<string, string>, stat: string -> Result<nat, string>): (o: RunOutcome)
    ensures 1 <= |o.attempted| <= |AllStages| && o.attempted == AllStages[..|o.attempted|]
    ensures o.result.Failure? ==> o.result.error.FailedStage() == o.attempted[|o.attempted| - 1]
    ensures o.result.Success? ==> o.attempted == AllStages
    ensures CompressStage in o.attempted <==> key.Success?
    ensures StatStage in o.attempted <==> key.Success? && archive.Success?
    ensures key.Failure? ==> o.result == Failure(KeyEvaluationFailed(key.error))
    ensures key.Success? && archive.Failure? ==> o.result == Failure(CompressionFailed(archive.error))
    ensures key.Success? && archive.Success? && stat(archive.value).Failure? ==>
              o.result == Failure(StatFailed(stat(archive.value).error))
    ensures key.Success? && archive.Success? && stat(archive.value).Success? ==>
              o.result == Success(RunReport(key.value, archive.value, stat(archive.value).value))
  {
    match key
    case Failure(err) =>
      assert AllStages[..1] == [EvaluateKeyStage];
      RunOutcome([EvaluateKeyStage], Failure(KeyEvaluationFailed(err)))
    case Success(evaluatedKey) =>
      match archive
      case Failure(err) =>
        assert AllStages[..2] == [EvaluateKeyStage, CompressStage];
        assert StatStage !in [EvaluateKeyStage, CompressStage];
        RunOutcome([EvaluateKeyStage, CompressStage], Failure(CompressionFailed(err)))
      case Success(archivePath) =>
        assert AllStages[..3] == AllStages;
        match stat(archivePath)
        case Failure(err) => RunOutcome(AllStages, Failure(StatFailed(err)))
        case Success(size) => RunOutcome(AllStages, Success(RunReport(evaluatedKey, archivePath, size)))
  }

  /**
   * `Run`: evaluate the key, then compress, then stat the archive. The first
   * failing stage ends the run with its error, and no later stage is entered.
   */
  function Run(step: SaveCacheStep, config: Config, now: Timestamp): (o: RunOutcome)
    ensures 1 <= |o.attempted| <= |AllStages| && o.attempted == AllStages[..|o.attempted|]
    ensures o.result.Failure? ==> o.result.error.FailedStage() == o.attempted[|o.attempted| - 1]
    ensures o.result.Success? ==> o.attempted == AllStages
    ensures CompressStage in o.attempted <==> EvaluateKey(step, config.key).Success?
    ensures StatStage in o.attempted <==>
              EvaluateKey(step, config.key).Success? && CompressArchive(step, config.paths, now).result.Success?
    ensures EvaluateKey(step, config.key).Failure? ==>
              o.result == Failure(KeyEvaluationFailed(EvaluateKey(step, config.key).error))
    ensures var archive := CompressArchive(step, config.paths, now).result;
            EvaluateKey(step, config.key).Success? && archive.Failure? ==>
              o.result == Failure(CompressionFailed(archive.error))
    ensures var archive := CompressArchive(step, config.paths, now).result;
            EvaluateKey(step, config.key).Success? && archive.Success? && step.stat(archive.value).Failure? ==>
              o.result == Failure(StatFailed(step.stat(archive.value).error))
    ensures var archive := CompressArchive(step, config.paths, now).result;
            EvaluateKey(step, config.key).Success? && archive.Success? && step.stat(archive.value).Success? ==>
              o.result.Success?
    ensures o.result.Success? ==>
              o.result.value.evaluatedKey == EvaluateKey(step, config.key).value &&
              o.result.value.archivePath == CompressArchive(step, config.paths, now).result.value &&
              FilePath.LastElement(o.result.value.archivePath) == ArchiveFileName(now) &&
              step.stat(o.result.value.archivePath) == Success(o.result.value.archiveSize)
  {
    RunStages(EvaluateKey(step, config.key), CompressArchive(step, config.paths, now).result, step.stat)
  }

  /** An empty path list is not short-circuited: tar is still run, with no members. */
  lemma EmptyPathListStillRunsTar(step: SaveCacheStep, config: Config, now: Timestamp)
    requires config.paths == []
    requires step.createTempDir(TempDirPrefix).Success?
    ensures var o := CompressArchive(step, config.paths, now);
            o.invoked.Some? && |o.invoked.value.args| == Compression.TarPrefixLength
  {
  }
}
