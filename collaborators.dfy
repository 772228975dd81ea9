/** The environment-variable repository the step reads (`env.Repository`). */
module Env {

  /** `Repository.Get`: the value of the variable, or the empty string when it is unset. */
  function Get(vars: map<string, string>, name: string): (value: string)
    ensures name in vars ==> value == vars[name]
    ensures name !in vars ==> value == ""
  {
    if name in vars then vars[name] else ""
  }
}

/** External commands, as the command factory builds and runs them. */
module Exec {
  import opened Wrappers

  /** A program name and its argument vector, as handed to `command.Factory.Create`. */
  datatype Command = Command(name: string, args: seq<string>)

  /** A failed run: the trimmed combined output and the error it returned. */
  datatype CommandFailure = CommandFailure(output: string, err: string)

  /**
   * `RunAndReturnTrimmedCombinedOutput` on a built command: the process
   * itself is outside the model, so a runner is a given function from the
   * command to its output or its failure.
   */
  type Runner = Command -> Result<string, CommandFailure>
}
