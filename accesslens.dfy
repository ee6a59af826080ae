/** The access and lens examples on a one-field struct User: reading a field
    through an accessor, deriving its length accessor, comparing with
    strict bounds, filtering lists with such predicates, and reading and
    writing the field through a lens. */
module AccessLens {
  import opened Basics
  import opened Access
  import opened FuncCollections

  /** The struct User(String name). */
  datatype User = User(name: string)

  /** User's toString: the name between "User[name: " and "]". */
  function UserToString(u: User): (r: string)
    ensures |r| == |u.name| + 12
    ensures r[..11] == "User[name: " && r[11..|r| - 1] == u.name && r[|r| - 1] == ']'
  {
    "User[name: " + u.name + "]"
  }

  /** The rendering loses nothing: equal renderings come from equal users. */
  lemma UserToStringInjective(a: User, b: User)
    requires UserToString(a) == UserToString(b)
    ensures a == b
  {
    var r := UserToString(a);
    assert a.name == r[11..|r| - 1] == b.name;
  }

  /** theUser.name: the lens on User's only field. */
  function UserName(): (l: Lens<User, string>)
    ensures forall u :: l.read(u) == u.name
    ensures forall u, v :: l.write(u, v) == User(v)
  {
    Lens((u: User) => u.name, (u: User, v: string) => User(v))
  }

  /** theUser.name obeys the lens laws: a write changes the name and nothing else. */
  lemma UserNameLawful()
    ensures Lawful(UserName())
  {
  }

  /** theString (also $S): the accessor of a string itself. */
  function TheString(): (read: string -> string)
    ensures forall s :: read(s) == s
  {
    (s: string) => s
  }

  /** For any integer accessor and bound, every element is below, at or
      above the bound, so filtering with thatLessThan, thatEquals and
      thatGreaterThan splits a list into three parts whose sizes add up to
      the whole: the strict comparisons leave the boundary out. */
  lemma {:induction false} ComparisonsPartition<T(!new)>(xs: seq<T>, read: T -> int, n: int)
    ensures |Filter(xs, ThatLessThan(read, n))| + |Filter(xs, ThatEquals(read, n))|
          + |Filter(xs, ThatGreaterThan(read, n))| == |xs|
  {
    if xs != [] {
      ComparisonsPartition(xs[1..], read, n);
    }
  }

  // ------------------------------------------ the tests of AccessLensExamples

  /** example01_Access and example02_Compose */
  lemma AccessExample()
    ensures UserName().read(User("John")) == "John"
    ensures Length(UserName().read)(User("John")) == 4
  {
  }

  /** example03_Compare: 4 is not greater than 4. */
  lemma CompareExample()
    ensures !ThatGreaterThan(Length(UserName().read), 4)(User("John"))
    ensures ThatGreaterThan(Length(UserName().read), 4)(User("NawaMan"))
  {
  }

  /** example04_Stream */
  lemma StreamExample()
    ensures Filter([User("John"), User("NawaMan"), User("Jack")], ThatGreaterThan(Length(UserName().read), 4))
         == [User("NawaMan")]
    ensures ListToString([User("NawaMan")], UserToString) == "[User[name: NawaMan]]"
  {
    assert "[" + "User[name: " == "[User[name: ";
    assert "[User[name: " + "NawaMan" == "[User[name: NawaMan";
    assert "[User[name: NawaMan" + "]" == "[User[name: NawaMan]";
    assert "[User[name: NawaMan]" + "]" == "[User[name: NawaMan]]";
  }

  /** example05_CommonAccess: strict bounds on the string's own length. */
  lemma CommonAccessExample()
    ensures Filter(["John", "David", "Adam", "Ben"], ThatLessThan(Length(TheString()), 4)) == ["Ben"]
    ensures Filter(["John", "David", "Adam", "Ben"], ThatGreaterThan(Length(TheString()), 4)) == ["David"]
    ensures ListToString(["Ben"], TheString()) == "[Ben]"
    ensures ListToString(["David"], TheString()) == "[David]"
  {
    var names := ["John", "David", "Adam", "Ben"];
    assert names[1..] == ["David", "Adam", "Ben"];
    assert names[1..][1..] == ["Adam", "Ben"];
    assert names[1..][1..][1..] == ["Ben"];
  }

  /** example06_LensRead */
  lemma LensReadExample()
    ensures UserName().read(User("John")) == "John"
  {
  }

  /** example07_LensChange: the write gives a new user; the original is a
      value and keeps its name. */
  lemma LensChangeExample()
    ensures UserToString(User("John")) == "User[name: John]"
    ensures UserToString(UserName().write(User("John"), "Jack")) == "User[name: Jack]"
  {
  }
}
