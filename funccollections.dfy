/** The persistent list and map the examples use (FuncList, FuncMap).
    A list is a value of type seq, a map a value of type map: every operation
    returns a new container and the receiver, being a value, is never
    changed. The mutating java.util operations add and put exist on both
    interfaces but are refused. */
module FuncCollections {
  import opened Basics

  /** The errors of the collections: add and put on an immutable
      collection, and get with an index outside the list. */
  datatype CollectionError = UnsupportedOperation | IndexOutOfBounds

  // ---------------------------------------------------------------- lists

  /** list.get(i): the element at i; an index outside the list fails
      with IndexOutOfBounds, as java.util.List.get throws. */
  function Get<T>(list: seq<T>, i: int): (r: Result<T, CollectionError>)
    ensures r.Success? <==> 0 <= i < |list|
    ensures r.Success? ==> r.value == list[i]
    ensures r.Failure? ==> r.error == IndexOutOfBounds
  {
    if 0 <= i < |list| then Success(list[i]) else Failure(IndexOutOfBounds)
  }

  /** list.append(x): a new list, one longer, with x last and the old
      elements in front in their order. */
  function Append<T>(list: seq<T>, x: T): (r: seq<T>)
    ensures |r| == |list| + 1
    ensures r[|list|] == x
    ensures r[..|list|] == list
  {
    list + [x]
  }

  /** list.add(x) on an immutable list: always refused. */
  function Add<T>(list: seq<T>, x: T): (r: Result<seq<T>, CollectionError>)
    ensures r.Failure? && r.error == UnsupportedOperation
  {
    Failure(UnsupportedOperation)
  }

  /** list.map(f): same length, same order, each element transformed on its own. */
  function Map<T, U>(list: seq<T>, f: T -> U): (r: seq<U>)
    ensures |r| == |list|
    ensures forall i :: 0 <= i < |list| ==> r[i] == f(list[i])
  {
    if list == [] then [] else [f(list[0])] + Map(list[1..], f)
  }

  /** list.filter(p): the elements that satisfy p. */
  function Filter<T>(list: seq<T>, p: T -> bool): (r: seq<T>)
    ensures |r| <= |list|
    ensures forall i :: 0 <= i < |r| ==> r[i] in list && p(r[i])
    ensures forall i :: 0 <= i < |list| && p(list[i]) ==> list[i] in r
  {
    if list == [] then []
    else if p(list[0]) then [list[0]] + Filter(list[1..], p)
    else Filter(list[1..], p)
  }

  /** Filtering keeps the original order: filtering a concatenation is
      concatenating the filtered parts. */
  lemma {:induction false} FilterAppend<T>(a: seq<T>, b: seq<T>, p: T -> bool)
    ensures Filter(a + b, p) == Filter(a, p) + Filter(b, p)
  {
    if a != [] {
      var ab := a + b;
      assert ab[0] == a[0] && ab[1..] == a[1..] + b;
      FilterAppend(a[1..], b, p);
      if p(a[0]) {
        assert Filter(ab, p) == [a[0]] + (Filter(a[1..], p) + Filter(b, p));
        assert Filter(a, p) == [a[0]] + Filter(a[1..], p);
      } else {
        assert Filter(ab, p) == Filter(a[1..], p) + Filter(b, p);
        assert Filter(a, p) == Filter(a[1..], p);
      }
    } else {
      assert a + b == b;
    }
  }

  /** A filter that every element passes returns the list itself. */
  lemma {:induction false} FilterAllPass<T>(list: seq<T>, p: T -> bool)
    requires forall i :: 0 <= i < |list| ==> p(list[i])
    ensures Filter(list, p) == list
  {
    if list != [] {
      FilterAllPass(list[1..], p);
    }
  }

  /** Appending an element that was not in the list and filtering it out
      again gives back a list equal to the original. */
  lemma AppendThenFilterOut<T>(list: seq<T>, x: T)
    requires x !in list
    ensures Filter(Append(list, x), y => y != x) == list
  {
    var p := (y: T) => y != x;
    FilterAppend(list, [x], p);
    FilterAllPass(list, p);
    assert Filter([x], p) == [];
  }

  /** zipWith: pairs the elements at equal positions until the shorter input ends. */
  function ZipWith<A, B, C>(a: seq<A>, b: seq<B>, f: (A, B) -> C): (r: seq<C>)
    ensures |r| == if |a| < |b| then |a| else |b|
    ensures forall i :: 0 <= i < |r| ==> r[i] == f(a[i], b[i])
  {
    if a == [] || b == [] then [] else [f(a[0], b[0])] + ZipWith(a[1..], b[1..], f)
  }

  /** sum() of an integer stream, first element first. */
  function Sum(xs: seq<int>): (r: int)
    ensures xs == [] ==> r == 0
    ensures (forall i :: 0 <= i < |xs| ==> 0 <= xs[i]) ==> 0 <= r
    ensures (forall i :: 0 <= i < |xs| ==> xs[i] <= 0) ==> r <= 0
  {
    if xs == [] then 0 else xs[0] + Sum(xs[1..])
  }

  /** The sum of a concatenation is the sum of the parts, so the order in
      which a stream is cut into parts does not change its sum. */
  lemma {:induction false} SumAppend(a: seq<int>, b: seq<int>)
    ensures Sum(a + b) == Sum(a) + Sum(b)
  {
    if a == [] {
      assert a + b == b;
    } else {
      assert (a + b)[1..] == a[1..] + b;
      SumAppend(a[1..], b);
    }
  }

  /** A sum of n terms each between lo and hi lies between n * lo and n * hi. */
  lemma {:induction false} SumBounds(xs: seq<int>, lo: int, hi: int)
    requires forall i :: 0 <= i < |xs| ==> lo <= xs[i] <= hi
    ensures |xs| * lo <= Sum(xs) <= |xs| * hi
  {
    if xs != [] {
      SumBounds(xs[1..], lo, hi);
      assert Sum(xs) == xs[0] + Sum(xs[1..]);
      MulSucc(|xs[1..]|, lo);
      MulSucc(|xs[1..]|, hi);
    }
  }

  /** One more term adds one more factor. */
  lemma MulSucc(n: int, k: int)
    ensures (n + 1) * k == n * k + k
  {
  }

  /** The elements joined with ", ", each rendered by render. */
  function Joined<T>(xs: seq<T>, render: T -> string): string {
    if xs == [] then ""
    else if |xs| == 1 then render(xs[0])
    else render(xs[0]) + ", " + Joined(xs[1..], render)
  }

  /** list.toString(): the rendered elements between brackets. */
  function ListToString<T>(xs: seq<T>, render: T -> string): (r: string)
    ensures xs == [] ==> r == "[]"
    ensures |xs| == 1 ==> r == "[" + render(xs[0]) + "]"
  {
    "[" + Joined(xs, render) + "]"
  }

  /** Joining a non-empty list: the first rendering, a comma, the rest joined. */
  lemma JoinedCons<T>(x: T, xs: seq<T>, render: T -> string)
    requires xs != []
    ensures Joined([x] + xs, render) == render(x) + ", " + Joined(xs, render)
  {
    assert ([x] + xs)[1..] == xs;
  }

  // ----------------------------------------------------------------- maps

  /** map.get(k): the value for k, or an explicit absent marker. */
  function Lookup<K, V>(m: map<K, V>, k: K): (r: Option<V>)
    ensures r.Some? <==> k in m
    ensures r.Some? ==> r.value == m[k]
  {
    if k in m then Some(m[k]) else None
  }

  /** map.with(k, v): a new map that has k bound to v and every other
      binding of the original unchanged. */
  function With<K(!new), V>(m: map<K, V>, k: K, v: V): (r: map<K, V>)
    ensures r.Keys == m.Keys + {k}
    ensures Lookup(r, k) == Some(v)
    ensures forall j :: j != k ==> Lookup(r, j) == Lookup(m, j)
  {
    m[k := v]
  }

  /** map.put(k, v) on an immutable map: always refused. */
  function Put<K, V>(m: map<K, V>, k: K, v: V): (r: Result<map<K, V>, CollectionError>)
    ensures r.Failure? && r.error == UnsupportedOperation
  {
    Failure(UnsupportedOperation)
  }

  /** map.mapValue(f): the same keys, each value transformed on its own. */
  function MapValue<K, V, W>(m: map<K, V>, f: V -> W): (r: map<K, W>)
    ensures r.Keys == m.Keys
    ensures forall k :: k in m ==> r[k] == f(m[k])
  {
    map k | k in m :: f(m[k])
  }

  /** Adding a new key grows the map by exactly one entry and leaves the
      old map's size as it was. */
  lemma WithNewKeySize<K(!new), V>(m: map<K, V>, k: K, v: V)
    requires k !in m
    ensures |With(m, k, v)| == |m| + 1
  {
    assert With(m, k, v).Keys == m.Keys + {k};
  }

  /** Two mapValue passes are one pass with the composed function. */
  lemma MapValueCompose<K, V, W, X>(m: map<K, V>, f: V -> W, g: W -> X)
    ensures MapValue(MapValue(m, f), g) == MapValue(m, v => g(f(v)))
  {
  }

  // -------------------------------------------- the tests of ListMapExamples

  /** exampleListMap: the list renders its elements in order. */
  lemma ListMapExample()
    ensures ListToString(["I", "Me", "Myself"], (s: string) => s) == "[I, Me, Myself]"
  {
    var id := (s: string) => s;
    JoinedCons("Me", ["Myself"], id);
    assert ["Me"] + ["Myself"] == ["Me", "Myself"];
    assert "Me" + ", " + "Myself" == "Me, Myself";
    JoinedCons("I", ["Me", "Myself"], id);
    assert ["I"] + ["Me", "Myself"] == ["I", "Me", "Myself"];
    assert "I" + ", " + "Me, Myself" == "I, Me, Myself";
    assert "[" + "I, Me, Myself" + "]" == "[I, Me, Myself]";
  }

  /** exampleReadOnly: a three element list and a three entry map. */
  lemma ReadOnlyExample<V>(one: V, pi: V, e: V)
    ensures |["I", "Me", "Myself"]| == 3
    ensures Get(["I", "Me", "Myself"], 1) == Success("Me")
    ensures Get(["I", "Me", "Myself"], 3) == Failure(IndexOutOfBounds)
    ensures |map["One" := one, "PI" := pi, "E" := e]| == 3
    ensures Lookup(map["One" := one, "PI" := pi, "E" := e], "PI") == Some(pi)
  {
    var m := map["One" := one, "PI" := pi, "E" := e];
    assert m.Keys == {"One", "PI", "E"};
  }

  /** exampleUnsupportException: add and put are refused. */
  lemma UnsupportedExample<V>(one: V, pi: V, e: V, ten: V)
    ensures Add(["I", "Me", "Myself"], "We").Failure?
    ensures Put(map["One" := one, "PI" := pi, "E" := e], "Ten", ten).Failure?
  {
  }

  /** The last two elements of the appended list, joined. */
  lemma MyselfFirstPersonJoined()
    ensures Joined(["Myself", "First-Person"], (s: string) => s) == "Myself, First-Person"
  {
    var id := (s: string) => s;
    JoinedCons("Myself", ["First-Person"], id);
    assert ["Myself"] + ["First-Person"] == ["Myself", "First-Person"];
    assert "Myself" + ", " + "First-Person" == "Myself, First-Person";
  }

  /** The last three elements of the appended list, joined. */
  lemma MeFirstPersonJoined()
    ensures Joined(["Me", "Myself", "First-Person"], (s: string) => s) == "Me, Myself, First-Person"
  {
    var id := (s: string) => s;
    MyselfFirstPersonJoined();
    JoinedCons("Me", ["Myself", "First-Person"], id);
    assert ["Me"] + ["Myself", "First-Person"] == ["Me", "Myself", "First-Person"];
    assert "Me" + ", " + "Myself, First-Person" == "Me, Myself, First-Person";
  }

  /** The appended list, joined. */
  lemma IFirstPersonJoined()
    ensures Joined(["I", "Me", "Myself", "First-Person"], (s: string) => s) == "I, Me, Myself, First-Person"
  {
    var id := (s: string) => s;
    MeFirstPersonJoined();
    JoinedCons("I", ["Me", "Myself", "First-Person"], id);
    assert ["I"] + ["Me", "Myself", "First-Person"] == ["I", "Me", "Myself", "First-Person"];
    assert "I" + ", " + "Me, Myself, First-Person" == "I, Me, Myself, First-Person";
  }

  /** The appended list renders with the new element last. */
  lemma FirstPersonRendering()
    ensures ListToString(["I", "Me", "Myself", "First-Person"], (s: string) => s) == "[I, Me, Myself, First-Person]"
  {
    IFirstPersonJoined();
    assert "[" + "I, Me, Myself, First-Person" == "[I, Me, Myself, First-Person";
    assert "[I, Me, Myself, First-Person" + "]" == "[I, Me, Myself, First-Person]";
  }

  /** exampleImmutableModification: append and with build new containers;
      the originals keep their three elements and entries. */
  lemma ImmutableModificationExample<V>(one: V, pi: V, e: V, ten: V)
    ensures Append(["I", "Me", "Myself"], "First-Person") == ["I", "Me", "Myself", "First-Person"]
    ensures ListToString(["I", "Me", "Myself"], (s: string) => s) == "[I, Me, Myself]"
    ensures ListToString(Append(["I", "Me", "Myself"], "First-Person"), (s: string) => s) == "[I, Me, Myself, First-Person]"
    ensures With(map["One" := one, "PI" := pi, "E" := e], "Ten", ten).Keys == {"One", "PI", "E", "Ten"}
    ensures |With(map["One" := one, "PI" := pi, "E" := e], "Ten", ten)| == 4
    ensures |map["One" := one, "PI" := pi, "E" := e]| == 3
  {
    var m := map["One" := one, "PI" := pi, "E" := e];
    assert m.Keys == {"One", "PI", "E"};
    WithNewKeySize(m, "Ten", ten);
    ListMapExample();
    assert Append(["I", "Me", "Myself"], "First-Person") == ["I", "Me", "Myself", "First-Person"];
    FirstPersonRendering();
  }

  /** exampleFunctional: map(String::length) over [I, Me, Myself] is
      [1, 2, 6], and renders as "[1, 2, 6]". */
  lemma FunctionalExample()
    ensures Map(["I", "Me", "Myself"], (s: string) => |s|) == [1, 2, 6]
    ensures ListToString(Map(["I", "Me", "Myself"], (s: string) => |s|), IntToString) == "[1, 2, 6]"
  {
    assert Map(["I", "Me", "Myself"], (s: string) => |s|) == [1, 2, 6];
    assert IntToString(1) == "1" && IntToString(2) == "2" && IntToString(6) == "6";
    JoinedCons(2, [6], IntToString);
    assert [2] + [6] == [2, 6];
    assert "2" + ", " + "6" == "2, 6";
    JoinedCons(1, [2, 6], IntToString);
    assert [1] + [2, 6] == [1, 2, 6];
    assert "1" + ", " + "2, 6" == "1, 2, 6";
    assert "[" + "1, 2, 6" + "]" == "[1, 2, 6]";
  }
}
