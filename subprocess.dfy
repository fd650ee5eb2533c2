/**
 * What one run of the Prover9 or Mace4 binary hands back to the wrapper.
 * Starting the process, writing the temporary input file and waiting for it
 * are outside the model; the wrapper only ever sees one of these three.
 */
module Subprocess {

  datatype RunOutcome =
    /** The binary exited; its captured standard output and standard error. */
    | Completed(stdout: string, stderr: string)
    /** `subprocess.TimeoutExpired` was raised. */
    | TimedOut
    /** Any other exception, with the text `str(e)` gives. */
    | Raised(message: string)
}
