/** A struct that extends a hand-written abstract class: the class supplies
    greeting(name) on top of the abstract greetWord(), and the struct
    FriendlyGuy supplies greetWord as its field. */
module Greeters {

  /** The struct FriendlyGuy(String greetWord). */
  datatype FriendlyGuy = FriendlyGuy(greetWord: string)

  /** Greeter.greeting(name): the greet word, a space, the name and "!". */
  function Greeting(g: FriendlyGuy, name: string): (r: string)
    ensures |r| == |g.greetWord| + |name| + 2
    ensures r[..|g.greetWord|] == g.greetWord
    ensures r[|g.greetWord|] == ' '
    ensures r[|g.greetWord| + 1..|r| - 1] == name
    ensures r[|r| - 1] == '!'
  {
    g.greetWord + " " + name + "!"
  }

  /** The same greeter greets different names differently: the name can be
      read back from the greeting. */
  lemma GreetingInjective(g: FriendlyGuy, a: string, b: string)
    requires Greeting(g, a) == Greeting(g, b)
    ensures a == b
  {
    var r := Greeting(g, a);
    assert a == r[|g.greetWord| + 1..|r| - 1] == b;
  }

  /** FriendlyGuy.shakeHand(): does nothing; the friendly guy after the
      handshake is the one before it. */
  function ShakeHand(g: FriendlyGuy): (after: FriendlyGuy)
    ensures after == g
  {
    g
  }

  /** A handshake does not change how the friendly guy greets. */
  lemma ShakeHandKeepsGreeting(g: FriendlyGuy, name: string)
    ensures Greeting(ShakeHand(g), name) == Greeting(g, name)
  {
  }

  /** example01_Extends */
  lemma ExtendsExample()
    ensures Greeting(FriendlyGuy("Hi"), "Bruce Wayne") == "Hi Bruce Wayne!"
  {
    assert "Hi" + " " == "Hi ";
    assert "Hi " + "Bruce Wayne" == "Hi Bruce Wayne";
    assert "Hi Bruce Wayne" + "!" == "Hi Bruce Wayne!";
  }
}
