/**
 * The `Hello` program of the advanced CMake sample
 * (Samples/CMakeSupport/Advanced/Hello/main.cxx): it greets every command-line
 * argument after the program name through a `Communicator`, or fails when
 * there is none.
 */
module AdvancedHello {
  import opened CommunicatorLib
  import opened Process

  /** The message written to standard error when no name is given. */
  const MissingNameMessage: string := "ERROR: Please provide at least one name as argument."

  /** One greeting line per name, in the order of the names. */
  function Greetings(names: seq<string>): (lines: seq<string>)
    ensures |lines| == |names|
    ensures forall i :: 0 <= i < |names| ==> lines[i] == Communicator(names[i]).Hello()
  {
    if names == [] then []
    else Greetings(names[..|names| - 1]) + [Communicator(names[|names| - 1]).Hello()]
  }

  /**
   * The transcript of a run with argument vector `argv` (program name first,
   * so `argc` is `|argv|`).
   */
  function Outcome(argv: seq<string>): (t: Transcript)
    ensures t.status == ExitFailure <==> |argv| < 2
    ensures t.status == ExitFailure ==> t.stdout == [] && t.stderr == [MissingNameMessage]
    ensures t.status == ExitSuccess ==> t.stderr == [] && |t.stdout| == |argv| - 1
    ensures t.status == ExitSuccess ==>
      forall i :: 1 <= i < |argv| ==> t.stdout[i - 1] == Communicator(argv[i]).Hello()
  {
    if |argv| < 2 then Transcript([], [MissingNameMessage], ExitFailure)
    else Transcript(Greetings(argv[1..]), [], ExitSuccess)
  }

  /** `main`: the early argument check, then one greeting per argument. */
  method Run(argv: seq<string>) returns (t: Transcript)
    ensures t == Outcome(argv)
  {
    if |argv| < 2 {
      return Transcript([], [MissingNameMessage], ExitFailure);
    }
    var stdout: seq<string> := [];
    var i := 1;
    while i < |argv|
      invariant 1 <= i <= |argv|
      invariant stdout == Greetings(argv[1..i])
    {
      var communicator := Communicator(argv[i]);
      stdout := stdout + [communicator.Hello()];
      assert argv[1..i + 1][..i - 1] == argv[1..i];
      i := i + 1;
    }
    assert argv[1..i] == argv[1..];
    return Transcript(stdout, [], ExitSuccess);
  }

  /** Greeting a list of names in two parts gives the two parts' lines, one after the other. */
  lemma {:induction false} GreetingsAppend(a: seq<string>, b: seq<string>)
    ensures Greetings(a + b) == Greetings(a) + Greetings(b)
  {
    if b == [] {
      assert a + b == a;
    } else {
      var b' := b[..|b| - 1];
      assert (a + b)[..|a + b| - 1] == a + b';
      GreetingsAppend(a, b');
    }
  }

  /** The program name in `argv[0]` is never greeted: replacing it changes nothing. */
  lemma ProgramNameIgnored(argv: seq<string>, name: string)
    requires |argv| > 0
    ensures Outcome([name] + argv[1..]) == Outcome(argv)
  {
    assert ([name] + argv[1..])[1..] == argv[1..];
  }

  /**
   * Output lines follow the arguments one for one: two lines are equal exactly
   * when their arguments are, so repeated names are greeted repeatedly and
   * distinct names never merge.
   */
  lemma LinesMatchArguments(argv: seq<string>, i: nat, j: nat)
    requires 1 <= i < |argv| && 1 <= j < |argv|
    ensures Outcome(argv).stdout[i - 1] == Outcome(argv).stdout[j - 1] <==> argv[i] == argv[j]
  {
    HelloInjective(Communicator(argv[i]), Communicator(argv[j]));
  }

  /** A run with names `Bob` and `Bob` greets Bob twice. */
  lemma NoDeduplication()
    ensures Outcome(["hello", "Bob", "Bob"]).stdout == ["Hello Bob!", "Hello Bob!"]
  {
    var out := Outcome(["hello", "Bob", "Bob"]).stdout;
    assert Communicator("Bob").Hello() == "Hello Bob!";
    assert out[0] == "Hello Bob!" && out[1] == "Hello Bob!";
  }
}
