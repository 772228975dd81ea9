/**
 * Archive creation by shelling out to `tar` with `zstd` as the compressor.
 * The argument vector is built here; running it is the job of a given
 * command runner.
 */
module Compression {
  import opened Wrappers
  import Env
  import opened Exec

  const TarProgram := "tar"
  const UseCompressProgram := "--use-compress-program"
  /** CPU-count threads and long-distance matching. */
  const ZstdCommand := "zstd --threads=0 --long"
  /** Keep absolute member names (BSD `--absolute-paths`, GNU `--absolute-names`). */
  const AbsoluteNames := "-P"
  const CreateFile := "-cf"
  const DirectoryFlag := "--directory"
  const SourceDirVar := "BITRISE_SOURCE_DIR"
  /** The number of arguments before the member paths. */
  const TarPrefixLength := 7

  /** The archive request an argument vector expresses. */
  datatype TarRequest = TarRequest(archivePath: string, sourceDir: string, members: seq<string>)

  /**
   * The tar arguments: compressor, absolute names, create `archivePath`,
   * change to `sourceDir`, then the member paths unchanged and in order.
   */
  function TarArgs(archivePath: string, sourceDir: string, includePaths: seq<string>): (args: seq<string>)
    ensures |args| == TarPrefixLength + |includePaths|
    ensures args[..4] == [UseCompressProgram, ZstdCommand, AbsoluteNames, CreateFile]
    ensures args[4] == archivePath
    ensures args[5] == DirectoryFlag && args[6] == sourceDir
    ensures args[TarPrefixLength..] == includePaths
  {
    [UseCompressProgram, ZstdCommand, AbsoluteNames, CreateFile, archivePath, DirectoryFlag, sourceDir] + includePaths
  }

  /** Reads an argument vector of the fixed layout back into the request it encodes. */
  function DecodeTarArgs(args: seq<string>): Option<TarRequest>
  {
    if |args| >= TarPrefixLength && args[0] == UseCompressProgram && args[1] == ZstdCommand &&
       args[2] == AbsoluteNames && args[3] == CreateFile && args[5] == DirectoryFlag
    then Some(TarRequest(args[4], args[6], args[TarPrefixLength..]))
    else None
  }

  /** Every request is encoded by exactly one vector: decoding undoes TarArgs, and TarArgs undoes decoding. */
  lemma TarArgsDecode(archivePath: string, sourceDir: string, includePaths: seq<string>, args: seq<string>)
    ensures DecodeTarArgs(TarArgs(archivePath, sourceDir, includePaths)) == Some(TarRequest(archivePath, sourceDir, includePaths))
    ensures DecodeTarArgs(args) == Some(TarRequest(archivePath, sourceDir, includePaths)) ==>
              args == TarArgs(archivePath, sourceDir, includePaths)
  {
  }

  /** The `tar` command `Compress` builds, reading the source root from the environment. */
  function TarCommand(archivePath: string, includePaths: seq<string>, env: map<string, string>): (cmd: Command)
    ensures cmd.name == TarProgram
    ensures DecodeTarArgs(cmd.args) == Some(TarRequest(archivePath, Env.Get(env, SourceDirVar), includePaths))
  {
    TarArgsDecode(archivePath, Env.Get(env, SourceDirVar), includePaths, []);
    Command(TarProgram, TarArgs(archivePath, Env.Get(env, SourceDirVar), includePaths))
  }

  /**
   * `compression.Compress`: runs the tar command and returns no error when
   * it succeeds, or the error the command returned when it fails.
   */
  function Compress(archivePath: string, includePaths: seq<string>, env: map<string, string>, run: Runner): (err: Option<string>)
    ensures var outcome := run(TarCommand(archivePath, includePaths, env));
            (err == None <==> outcome.Success?) &&
            (outcome.Failure? ==> err == Some(outcome.error.err))
  {
    match run(TarCommand(archivePath, includePaths, env))
    case Success(_) => None
    case Failure(failure) => Some(failure.err)
  }
}
