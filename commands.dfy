/**
 * Running an external command: `exec.Run` starts the process and
 * `Promise.Wait` collects its exit code. Their implementation is not part of
 * this model; a controller operation receives how the run went as an input.
 */
module Commands {

  /** How one run of a command went: it could not be launched, waiting for it
      failed, or it finished with an exit code. */
  datatype CommandRun =
    | LaunchFail
    | WaitFail
    | Exit(code: int)

  /** The run finished with exit code 0. */
  predicate Succeeded(run: CommandRun)
  {
    run == Exit(0)
  }
}
