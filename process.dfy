/**
 * What a command-line run of a C++ sample leaves behind: the lines written to
 * standard output and standard error, and the status returned from `main`.
 * `std::endl` ends each line, so a stream is modelled as its sequence of lines.
 */
module Process {
  /** `EXIT_SUCCESS` and `EXIT_FAILURE` from <cstdlib>; their numbers are platform-defined. */
  datatype ExitStatus = ExitSuccess | ExitFailure

  datatype Transcript = Transcript(stdout: seq<string>, stderr: seq<string>, status: ExitStatus)
}
