/**
 * The single-file CMake sample (src/legacy/Samples/CMakeSupport/Simple/main.cxx):
 * the same program as the advanced `Hello`, with the greeting written inline
 * instead of through a `Communicator`.
 */
module SimpleHello {
  import opened Process
  import CommunicatorLib
  import AdvancedHello

  /** The message written to standard error when no name is given. */
  const MissingNameMessage: string := "ERROR: Please provide at least one name as argument."

  /** The transcript of a run with argument vector `argv` (program name first). */
  function Outcome(argv: seq<string>): (t: Transcript)
    ensures t.status == ExitFailure <==> |argv| < 2
    ensures t.status == ExitFailure ==> t.stdout == [] && t.stderr == [MissingNameMessage]
    ensures t.status == ExitSuccess ==> t.stderr == [] && |t.stdout| == |argv| - 1
    ensures t.status == ExitSuccess ==>
      forall i :: 1 <= i < |argv| ==> t.stdout[i - 1] == "Hello " + argv[i] + "!"
  {
    if |argv| < 2 then Transcript([], [MissingNameMessage], ExitFailure)
    else Transcript(seq(|argv| - 1, k requires 0 <= k < |argv| - 1 => "Hello " + argv[k + 1] + "!"), [], ExitSuccess)
  }

  /** `main`: the early argument check, then one line per argument written to `std::cout`. */
  method Run(argv: seq<string>) returns (t: Transcript)
    ensures t == Outcome(argv)
  {
    if |argv| < 2 {
      return Transcript([], [MissingNameMessage], ExitFailure);
    }
    var stdout: seq<string> := [];
    for i := 1 to |argv|
      invariant |stdout| == i - 1
      invariant forall k :: 1 <= k < i ==> stdout[k - 1] == "Hello " + argv[k] + "!"
    {
      stdout := stdout + ["Hello " + argv[i] + "!"];
    }
    return Transcript(stdout, [], ExitSuccess);
  }

  /** For every argument vector both samples print, report and return exactly the same. */
  lemma SameAsAdvanced(argv: seq<string>)
    ensures Outcome(argv) == AdvancedHello.Outcome(argv)
  {
    var s, a := Outcome(argv), AdvancedHello.Outcome(argv);
    if |argv| >= 2 {
      forall i | 0 <= i < |argv| - 1
        ensures s.stdout[i] == a.stdout[i]
      {
        assert a.stdout[i] == CommunicatorLib.Communicator(argv[i + 1]).Hello();
      }
    }
  }
}
