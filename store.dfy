/** The Store of the effect examples: a cell holding an immutable value,
    changed by applying a list of functions to it, first function first. */
module Stores {
  import opened FuncCollections

  /** The value after applying fs in order, starting from v. */
  function ApplyAll<T>(v: T, fs: seq<T -> T>): T {
    if fs == [] then v else ApplyAll(fs[0](v), fs[1..])
  }

  /** Applying one more function at the end applies it to the result so far. */
  lemma {:induction false} ApplyAllSnoc<T>(v: T, fs: seq<T -> T>, f: T -> T)
    ensures ApplyAll(v, fs + [f]) == f(ApplyAll(v, fs))
  {
    if fs != [] {
      assert (fs + [f])[1..] == fs[1..] + [f];
      ApplyAllSnoc(fs[0](v), fs[1..], f);
    }
  }

  /** Two changes in a row are one change with both lists of functions. */
  lemma {:induction false} ApplyAllConcat<T>(v: T, fs: seq<T -> T>, gs: seq<T -> T>)
    ensures ApplyAll(v, fs + gs) == ApplyAll(ApplyAll(v, fs), gs)
  {
    if fs == [] {
      assert fs + gs == gs;
    } else {
      assert (fs + gs)[1..] == fs[1..] + gs;
      ApplyAllConcat(fs[0](v), fs[1..], gs);
    }
  }

  /** Store<T>: the current value, replaced by each change. */
  class Store<T> {
    var value: T

    /** new Store<>(initial) */
    constructor (initial: T)
      ensures value == initial
    {
      value := initial;
    }

    /** store.value(): the value the last change left, without changing it. */
    function Value(): (v: T)
      reads this
      ensures v == value
    {
      value
    }

    /** store.change(f1, f2, ...): the functions are applied one after the
        other, each to the value the previous one left. */
    method Change(fs: seq<T -> T>)
      modifies this
      ensures value == ApplyAll(old(value), fs)
    {
      for i := 0 to |fs|
        invariant value == ApplyAll(old(value), fs[..i])
      {
        ApplyAllSnoc(old(value), fs[..i], fs[i]);
        assert fs[..i + 1] == fs[..i] + [fs[i]];
        value := fs[i](value);
      }
      assert fs[..|fs|] == fs;
    }
  }

  /** apppend.applyTo(str): the change that appends str to a list. */
  function AppendFn(str: string): (f: seq<string> -> seq<string>)
    ensures forall list :: f(list) == Append(list, str)
  {
    (list: seq<string>) => Append(list, str)
  }

  /** The first append of a list of appends extends the list by the first string. */
  lemma ApplyAppendsStep(list: seq<string>, strs: seq<string>)
    requires strs != []
    ensures ApplyAll(list, Map(strs, AppendFn)) == ApplyAll(list + [strs[0]], Map(strs[1..], AppendFn))
  {
    var fs := Map(strs, AppendFn);
    assert fs[0](list) == list + [strs[0]];
    assert fs[1..] == Map(strs[1..], AppendFn);
  }

  /** Applying the appends of some strings, in order, extends the list by
      those strings in that order. */
  lemma {:induction false} ApplyAppends(list: seq<string>, strs: seq<string>)
    ensures ApplyAll(list, Map(strs, AppendFn)) == list + strs
    decreases |strs|
  {
    if strs == [] {
      assert Map(strs, AppendFn) == [];
    } else {
      ApplyAppendsStep(list, strs);
      ApplyAppends(list + [strs[0]], strs[1..]);
      assert list + [strs[0]] + strs[1..] == list + strs;
    }
  }

  /** storeExample: four appends turn [One, Two] into [One .. Six]. */
  method StoreExample() returns (before: seq<string>, after: seq<string>)
    ensures before == ["One", "Two"]
    ensures after == ["One", "Two", "Three", "Four", "Five", "Six"]
  {
    var store := new Store<seq<string>>(["One", "Two"]);
    before := store.Value();
    var strs := ["Three", "Four", "Five", "Six"];
    var fs := [AppendFn("Three"), AppendFn("Four"), AppendFn("Five"), AppendFn("Six")];
    assert fs == Map(strs, AppendFn);
    store.Change(fs);
    ApplyAppends(before, strs);
    after := store.Value();
  }

  /** The renderings the example compares against. */
  lemma StoreRenderingExample()
    ensures ListToString(["One", "Two"], (s: string) => s) == "[One, Two]"
  {
    assert ["One", "Two"][1..] == ["Two"];
    assert "One" + ", " + "Two" == "One, Two";
    assert "[" + "One, Two" == "[One, Two";
    assert "[One, Two" + "]" == "[One, Two]";
  }

  /** The last two strings of storeExample, joined. */
  lemma JoinedFiveSix()
    ensures Joined(["Five", "Six"], (s: string) => s) == "Five, Six"
  {
    JoinedCons("Five", ["Six"], (s: string) => s);
    assert ["Five"] + ["Six"] == ["Five", "Six"];
    assert "Five" + ", " + "Six" == "Five, Six";
  }

  lemma JoinedFourToSix()
    ensures Joined(["Four", "Five", "Six"], (s: string) => s) == "Four, Five, Six"
  {
    JoinedFiveSix();
    JoinedCons("Four", ["Five", "Six"], (s: string) => s);
    assert ["Four"] + ["Five", "Six"] == ["Four", "Five", "Six"];
    assert "Four" + ", " + "Five, Six" == "Four, Five, Six";
  }

  lemma JoinedThreeToSix()
    ensures Joined(["Three", "Four", "Five", "Six"], (s: string) => s) == "Three, Four, Five, Six"
  {
    JoinedFourToSix();
    JoinedCons("Three", ["Four", "Five", "Six"], (s: string) => s);
    assert ["Three"] + ["Four", "Five", "Six"] == ["Three", "Four", "Five", "Six"];
    assert "Three" + ", " + "Four, Five, Six" == "Three, Four, Five, Six";
  }

  lemma JoinedTwoToSix()
    ensures Joined(["Two", "Three", "Four", "Five", "Six"], (s: string) => s) == "Two, Three, Four, Five, Six"
  {
    JoinedThreeToSix();
    JoinedCons("Two", ["Three", "Four", "Five", "Six"], (s: string) => s);
    assert ["Two"] + ["Three", "Four", "Five", "Six"] == ["Two", "Three", "Four", "Five", "Six"];
    assert "Two" + ", " + "Three, Four, Five, Six" == "Two, Three, Four, Five, Six";
  }

  lemma JoinedOneToSix()
    ensures Joined(["One", "Two", "Three", "Four", "Five", "Six"], (s: string) => s) == "One, Two, Three, Four, Five, Six"
  {
    JoinedTwoToSix();
    JoinedCons("One", ["Two", "Three", "Four", "Five", "Six"], (s: string) => s);
    assert ["One"] + ["Two", "Three", "Four", "Five", "Six"] == ["One", "Two", "Three", "Four", "Five", "Six"];
    assert "One" + ", " + "Two, Three, Four, Five, Six" == "One, Two, Three, Four, Five, Six";
  }

  /** The rendering storeExample compares the changed store against. */
  lemma StoreChangedRenderingExample()
    ensures ListToString(["One", "Two", "Three", "Four", "Five", "Six"], (s: string) => s)
         == "[One, Two, Three, Four, Five, Six]"
  {
    JoinedOneToSix();
    assert "[" + "One, Two, Three, Four, Five, Six" == "[One, Two, Three, Four, Five, Six";
    assert "[One, Two, Three, Four, Five, Six" + "]" == "[One, Two, Three, Four, Five, Six]";
  }
}
