/**
 * The TypeScript sample (src/legacy/Samples/typescript/greetings.ts): a
 * `Person` with a first and a last name, and `greeter`, which formats the
 * greeting the page displays.
 */
module Greetings {
  import opened Wrappers

  datatype Person = Person(firstname: string, lastname: string)

  /** The text placed before the first name. */
  const Opening: string := "Hello, "

  /** `greeter`: the opening, the first name, one space, the last name; no validation. */
  function Greeter(person: Person): (r: string)
    ensures |r| == 8 + |person.firstname| + |person.lastname|
    ensures r[..|Opening|] == Opening
    ensures r[|Opening|..|Opening| + |person.firstname|] == person.firstname
    ensures r[|r| - |person.lastname|..] == person.lastname
    ensures r[|Opening| + |person.firstname|] == ' '
  {
    Opening + person.firstname + " " + person.lastname
  }

  /** The sample user of the page. */
  const SampleUser: Person := Person("Jane", "User")

  lemma SampleUserGreeting()
    ensures Greeter(SampleUser) == "Hello, Jane User"
  {
  }

  /** The position of the first occurrence of `c` in `s`, or `|s|` when there is none. */
  function IndexOf(s: string, c: char): (r: nat)
    ensures r <= |s|
    ensures r < |s| ==> s[r] == c
    ensures forall j :: 0 <= j < r ==> s[j] != c
  {
    if s == [] then 0
    else if s[0] == c then 0
    else 1 + IndexOf(s[1..], c)
  }

  /**
   * Reads a greeting back, splitting the names at the first space after the
   * opening; None when the text is not shaped like a greeting.
   */
  function SplitGreeting(greeting: string): (r: Option<Person>)
    ensures r.Some? ==> |greeting| == 8 + |r.value.firstname| + |r.value.lastname|
    ensures r.Some? ==> ' ' !in r.value.firstname
  {
    if |greeting| < |Opening| || greeting[..|Opening|] != Opening then None
    else
      var names := greeting[|Opening|..];
      var k := IndexOf(names, ' ');
      if k == |names| then None
      else Some(Person(names[..k], names[k + 1..]))
  }

  /** A person whose first name has no space is recovered from their greeting. */
  lemma SplitGreeter(person: Person)
    requires ' ' !in person.firstname
    ensures SplitGreeting(Greeter(person)) == Some(person)
  {
    var g := Greeter(person);
    var names := g[|Opening|..];
    assert names == person.firstname + " " + person.lastname;
    var k := IndexOf(names, ' ');
    assert names[|person.firstname|] == ' ';
    assert forall j :: 0 <= j < |person.firstname| ==> names[j] == person.firstname[j];
    assert k == |person.firstname|;
    assert names[..k] == person.firstname;
    assert names[k + 1..] == person.lastname;
  }

  /** Whatever reads as a greeting is the greeting of the person read from it. */
  lemma GreeterSplit(greeting: string, person: Person)
    requires SplitGreeting(greeting) == Some(person)
    ensures Greeter(person) == greeting
  {
    var names := greeting[|Opening|..];
    var k := IndexOf(names, ' ');
    assert names == names[..k] + [' '] + names[k + 1..];
    assert greeting == greeting[..|Opening|] + names;
  }

  /**
   * Without a separator the two names can run together: a first name with a
   * space and a last name without one greet like the split the other way.
   */
  lemma GreeterNotInjective()
    ensures Greeter(Person("Jane Q", "User")) == Greeter(Person("Jane", "Q User"))
  {
  }
}
