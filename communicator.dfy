/**
 * The `Communicator` component of the advanced CMake sample
 * (Samples/CMakeSupport/Advanced/Communicator): an object that is built
 * from the name of the person it talks to and can greet that person.
 *
 * The C++ class has one private field, an `explicit` constructor that takes
 * the name, and a single `const` operation `hello()`. Nothing can change the
 * name after construction, so the object is a value: a datatype whose only
 * constructor takes the name, with `Hello` as a member function.
 */
module CommunicatorLib {
  import opened Wrappers

  /** The text placed before the name. */
  const Salutation: string := "Hello "

  /** The text placed after the name. */
  const Exclamation: string := "!"

  /** A communicator holds the name of its interlocutor and nothing else. */
  datatype Communicator = Communicator(interlocutorName: string) {

    /** The greeting for the stored name; any name is accepted, even "". */
    function Hello(): (r: string)
      ensures |r| == |interlocutorName| + 7
      ensures r[..|Salutation|] == Salutation
      ensures r[|r| - 1..] == Exclamation
    {
      Salutation + interlocutorName + Exclamation
    }
  }

  /**
   * Reads a greeting back: the text between the salutation and the final
   * exclamation mark, or None when the text is not shaped like a greeting.
   */
  function Interlocutor(greeting: string): (r: Option<string>)
    ensures r.Some? <==>
      |greeting| >= |Salutation| + |Exclamation|
      && greeting[..|Salutation|] == Salutation
      && greeting[|greeting| - 1..] == Exclamation
    ensures r.Some? ==> |r.value| + 7 == |greeting|
  {
    if |greeting| >= |Salutation| + |Exclamation|
       && greeting[..|Salutation|] == Salutation
       && greeting[|greeting| - 1..] == Exclamation
    then Some(greeting[|Salutation|..|greeting| - 1])
    else None
  }

  /** Stripping the salutation and the exclamation mark gives back the stored name. */
  lemma HelloRoundTrip(c: Communicator)
    ensures Interlocutor(c.Hello()) == Some(c.interlocutorName)
  {
    var g := c.Hello();
    assert g[|Salutation|..|g| - 1] == c.interlocutorName;
  }

  /** Every text that reads as a greeting is the greeting of exactly the name read. */
  lemma InterlocutorRoundTrip(greeting: string, name: string)
    requires Interlocutor(greeting) == Some(name)
    ensures Communicator(name).Hello() == greeting
  {
    var n := |greeting|;
    assert greeting == greeting[..|Salutation|] + greeting[|Salutation|..n - 1] + greeting[n - 1..];
  }

  /** Two communicators greet alike exactly when they hold the same name. */
  lemma HelloInjective(a: Communicator, b: Communicator)
    ensures a.Hello() == b.Hello() <==> a == b
  {
    if a.Hello() == b.Hello() {
      HelloRoundTrip(a);
      HelloRoundTrip(b);
    }
  }

  /** No validation is done: the empty name still yields a greeting. */
  lemma EmptyNameGreeting()
    ensures Communicator("").Hello() == "Hello !"
  {
  }
}
