# bitrise-step-save-cache: configuration and archive construction

A Dafny model of the core of the Bitrise "save cache" step: turning the raw
step inputs into a configuration, evaluating the cache key, naming the cache
archive and building the `tar`/`zstd` command line, and the order in which a
run goes through these stages.

Everything outside the step's own code is a collaborator given to the model
as a value: the parsed inputs (or the parse error), the path absolutiser,
the existence check, the temporary-directory provider, the environment
variables, the key-template evaluator, the command runner and the archive
size lookup (`Step.SaveCacheStep`). The current time is a parameter
(`TimeFormat.Timestamp`, already in UTC). Warnings the step logs are
returned as values (`Step.Warning`) instead of being printed.

Modules:

- `Wrappers`: `Option` and `Result` for Go's error returns.
- `Strings`: Go's `strings.TrimSpace` (with `unicode.IsSpace`), `strings.Split` and `strings.Join` on one separator.
- `TimeFormat`: formatting a time with the layout `20060102-150405`, and a parser for the produced text.
- `FilePath`: `filepath.Join` of a directory and a file name, and the last element of a path.
- `Env`, `Exec`: environment lookup (unset reads as `""`) and the command values handed to the runner.
- `Compression`: the tar argument vector, its decoder, and `compression.Compress`.
- `Step`: `ProcessConfig` (an imperative loop), `evaluateKey`, `compress` and `Run`.

Behaviour worth knowing, as the code has it:

- The path list is split on `"\n"` only; there is no glob expansion and no de-duplication in the step itself. Whatever the absolutiser accepts is used.
- An entry that cannot be made absolute, or whose absolute path does not exist, is skipped with a warning; it is never an error. The surviving paths keep their input order.
- The blank-key check trims white space, but the configuration keeps the key exactly as given.
- An empty path list is not short-circuited: `compress` still runs `tar`, with seven arguments and no members (`Step.EmptyPathListStillRunsTar`).
- `step/step.go:135-144` and `compression/compression.go:12-21` build the same argument vector; both are modelled by `Compression.TarArgs`.

## Model

| member | source | states |
|---|---|---|
| `Strings.TrimLeftSpace` | step/step.go:61 | the result is the suffix of the input after its leading white space, and starts with a non-space character if non-empty |
| `Strings.TrimRightSpace` | step/step.go:61 | the result is the prefix of the input before its trailing white space, and ends with a non-space character if non-empty |
| `Strings.TrimSpace` | step/step.go:61 | the trimmed key is no longer than the key and neither starts nor ends with white space |
| `Strings.TrimSpaceEmptyIffAllSpace` | step/step.go:61-63 | a key trims to the empty string exactly when every character of it is white space, so `"  "` is rejected and any key with one visible character is accepted |
| `Strings.Split` | step/step.go:66 | splitting yields one more piece than there are separators, and no piece contains the separator |
| `Strings.JoinSplit` | step/step.go:66 | joining the pieces back with the separator gives the original input: splitting loses nothing |
| `Strings.SplitJoin` | step/step.go:66 | splitting a join of separator-free pieces gives exactly those pieces back |
| `Step.ProcessConfig` | step/step.go:53-87 | a parse error is returned unchanged; a key that is blank after trimming gives the error "cache key should not be empty" and no configuration; otherwise the result is always a configuration with the verbose flag and untrimmed key copied and the paths equal to the surviving entries of the newline split, with one warning per skipped entry |
| `Step.KeptPaths` | step/step.go:65-80 | the kept paths are never more than the input entries, and every kept path passed the existence check |
| `Step.KeptPathsAreOrderedSelection` | step/step.go:67-79 | the kept paths are exactly the absolute forms of the surviving entries, at strictly increasing input positions, with every surviving entry represented |
| `Step.KeptPathsAppend` | step/step.go:67-80 | filtering a concatenation is the concatenation of the filtered parts: each entry is handled on its own, in order |
| `Step.SkippedEntryIsDropped` | step/step.go:68-77 | an entry whose absolutisation fails or whose absolute path does not exist is removed and nothing else changes |
| `Step.KeptOrWarned` | step/step.go:67-79 | the kept paths and the warnings together number exactly the entries |
| `Step.SkipWarningIffNotKept` | step/step.go:68-79 | an entry draws a warning exactly when it is not kept: a failed absolutisation gives a parse warning, a missing path a missing-path warning |
| `Env.Get` | step/step.go:119-121 | a set variable reads as its value and an unset one as the empty string, never an error |
| `Step.BuildContextOf` | step/step.go:118-122 | the workflow, branch and commit fields are the values of `BITRISE_TRIGGERED_WORKFLOW_ID`, `BITRISE_GIT_BRANCH` and `BITRISE_GIT_COMMIT`, each the empty string when its variable is unset |
| `Step.BuildContextReadsOnlyItsVariables` | step/step.go:118-122 | two environments that agree on those three variables give the same build context |
| `Step.EvaluateKey` | step/step.go:116-125 | the key is the evaluator's answer, evaluator built over the whole environment, for the template and the build context read from the three variables; its error is returned unchanged |
| `TimeFormat.PadDecimal` | step/step.go:128 | the digits are padded to at least the width, and to exactly the width when the number fits |
| `TimeFormat.PadDecimalValue` | step/step.go:128 | reading a padded decimal back gives the number written |
| `TimeFormat.FormatStamp` | step/step.go:128 | for a valid time the stamp is all digits except one dash seven places from the end, and exactly 15 characters for a four-digit year |
| `TimeFormat.StampRoundTrip` | step/step.go:128 | a valid time with a four-digit year formats to 15 characters that parse back to the same time |
| `Step.ArchiveFileName` | step/step.go:128 | the archive file name contains no path separator |
| `Step.ArchiveFileNameRoundTrip` | step/step.go:128 | the time can be read back from the archive file name `cache-YYYYMMDD-HHMMSS.tzst` |
| `Step.ArchiveFileNameInjective` | step/step.go:128 | runs started at different seconds get different archive names |
| `FilePath.Join` | step/step.go:133 | the joined path starts with the directory and ends with the file name, with exactly one separator between them: none added when the directory is empty or already ends in one |
| `FilePath.LastElementOfJoin` | step/step.go:133 | the file name is the last element of the joined archive path |
| `Compression.TarArgs` | step/step.go:135-144 | the vector has 7 + the number of paths elements: the compressor option and program, `-P`, `-cf`, the archive path right after `-cf`, `--directory` and the source root right after it, then the paths unchanged and in order |
| `Compression.TarArgsDecode` | compression/compression.go:12-21 | decoding the vector gives back the archive path, source root and member list, and only that vector decodes to them |
| `Compression.TarCommand` | compression/compression.go:12-23 | `Compress` runs `tar` with a vector that decodes to the archive path, the `BITRISE_SOURCE_DIR` value and the include paths |
| `Compression.Compress` | compression/compression.go:9-34 | no error exactly when the tar command succeeds; on failure the command's own error is returned |
| `Step.CompressArchive` | step/step.go:127-157 | a temporary-directory failure is returned and tar is not run; otherwise tar runs with the archive at the directory joined with the timestamped name, a tar failure is returned as is, and success returns that archive path, whose last element is the archive file name |
| `Step.RunStages` | step/step.go:89-114 | the early-exit sequencing of the three stages over what each stage yields: a failed key evaluation ends the run with its error before compression, a failed compression ends it before stat, a failed stat ends it with the stat error, and only when all three succeed is the run successful, with the key, the path and the size |
| `Step.Run` | step/step.go:89-114 | the stages entered are a non-empty prefix of key evaluation, compression, stat; compression is entered exactly when the key evaluated, stat exactly when compression also succeeded; a failure is reported by the last stage entered and carries that stage's own error (key evaluation, compress, or stat); a run in which all three stages succeed succeeds, reporting the evaluated key, the archive path and its size |
| `Step.RunError.Message` | step/step.go:92-109 | the message ends with the underlying error; a key-evaluation error is prefixed "failed to evaluate key template: ", a compression error "compression failed: ", and a stat error is returned unwrapped |
| `Step.EmptyPathListStillRunsTar` | step/step.go:127-146 | with no paths, tar is still run, with only the seven fixed arguments |

## Left out

- Input parsing and printing (`stepconf`): the parser's result is given to `ProcessConfig` as a value.
- Logging: warnings are returned as values; info, debug and error lines are not modelled.
- The `tar` and `zstd` processes and the archive contents: the command runner is a given function.
- Key-template evaluation (`keytemplate`): a given function from template, build context and environment to a key or an error.
- EvaluateKey: what the evaluator built over `envRepo` and the logger (step/step.go:117) reads from the environment is not modelled; the evaluator receives the environment map, and only the build context's reads are stated.
- Reading the clock and converting it to UTC fields; elapsed-time reporting.
- `os.Stat` and the human-readable size text (floating point): the size lookup is a given function.
- Upload of the archive, analytics in `step/tracker.go`, and exit-code mapping in `main.go`.
- FilePath.Join: does not apply `filepath.Clean` to the directory, so it assumes the directory is already in `filepath.Clean` form; true for the default /tmp and for any TMPDIR in clean form, not for a TMPDIR such as `/a/./b`.
- TimeFormat.StampRoundTrip: holds for four-digit years only; years above 9999 are formatted with more digits and negative years are not modelled.
- Step.ArchiveFileNameRoundTrip: builds on the stamp round trip, so it also holds for four-digit years only.
- Step.ArchiveFileNameInjective: builds on the stamp round trip, so it also holds for four-digit years only.
- Strings.TrimSpace: works on Unicode scalar values; invalid UTF-8 byte sequences are not modelled.
