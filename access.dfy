/** The accessor algebra the examples lean on: a read accessor is a function
    from an owner to one of its fields, a lens pairs it with a write that
    returns a new owner, and both compose so that a nested field can be read
    and replaced in one step. Predicates derived from an accessor are the
    filters of the examples (thatEquals, thatIsIn, thatGreaterThan,
    thatLessThan). */
module Access {

  /** A read-write accessor: write(t, f) is t with the field replaced by f. */
  datatype Lens<!T, !F> = Lens(read: T -> F, write: (T, F) -> T)

  /** Writing back what was read changes nothing. */
  ghost predicate GetPut<T(!new), F>(l: Lens<T, F>) {
    forall t :: l.write(t, l.read(t)) == t
  }

  /** Reading after a write gives the written value. */
  ghost predicate PutGet<T(!new), F(!new)>(l: Lens<T, F>) {
    forall t, f :: l.read(l.write(t, f)) == f
  }

  /** A second write overrides the first. */
  ghost predicate PutPut<T(!new), F(!new)>(l: Lens<T, F>) {
    forall t, f, g :: l.write(l.write(t, f), g) == l.write(t, g)
  }

  /** The three laws that make a write "change this field and nothing else". */
  ghost predicate Lawful<T(!new), F(!new)>(l: Lens<T, F>) {
    GetPut(l) && PutGet(l) && PutPut(l)
  }

  /** Composition of two lenses: read through the outer then the inner
      accessor; write by updating the inner field of the outer value and
      writing that back through the outer accessor. */
  function Compose<A(!new), B, C(!new)>(outer: Lens<A, B>, inner: Lens<B, C>): (r: Lens<A, C>)
    ensures forall a :: r.read(a) == inner.read(outer.read(a))
    ensures forall a, c :: r.write(a, c) == outer.write(a, inner.write(outer.read(a), c))
  {
    Lens(a => inner.read(outer.read(a)), (a, c) => outer.write(a, inner.write(outer.read(a), c)))
  }

  /** Composing two lawful lenses gives a lawful lens. */
  lemma ComposeLawful<A(!new), B(!new), C(!new)>(outer: Lens<A, B>, inner: Lens<B, C>)
    requires Lawful(outer) && Lawful(inner)
    ensures Lawful(Compose(outer, inner))
  {
    var r := Compose(outer, inner);
    forall a: A
      ensures r.write(a, r.read(a)) == a
    {
      var b := outer.read(a);
      assert inner.write(b, inner.read(b)) == b;
      assert outer.write(a, b) == a;
    }
    forall a: A, c: C
      ensures r.read(r.write(a, c)) == c
    {
      var b := outer.read(a);
      var b' := inner.write(b, c);
      assert outer.read(outer.write(a, b')) == b';
      assert inner.read(b') == c;
    }
    forall a: A, c: C, d: C
      ensures r.write(r.write(a, c), d) == r.write(a, d)
    {
      var b := outer.read(a);
      var b' := inner.write(b, c);
      var a' := outer.write(a, b');
      assert outer.read(a') == b';
      assert inner.write(b', d) == inner.write(b, d);
      assert outer.write(a', inner.write(b, d)) == outer.write(a, inner.write(b, d));
    }
  }

  /** lens.changeTo(v): the update that sets the field to v. */
  function ChangeTo<T(!new), F>(l: Lens<T, F>, v: F): (update: T -> T)
    ensures forall t :: update(t) == l.write(t, v)
  {
    t => l.write(t, v)
  }

  /** Reading a field after changeTo(v) gives v. */
  lemma ChangeToReads<T(!new), F(!new)>(l: Lens<T, F>, v: F, t: T)
    requires PutGet(l)
    ensures l.read(ChangeTo(l, v)(t)) == v
  {
  }

  /** A string accessor's length(): a composed integer accessor. */
  function Length<T(!new)>(read: T -> string): (r: T -> int)
    ensures forall t :: r(t) == |read(t)|
  {
    t => |read(t)|
  }

  /** accessor.thatEquals(v) */
  function ThatEquals<T(!new), F(==)>(read: T -> F, v: F): (p: T -> bool)
    ensures forall t :: p(t) <==> read(t) == v
  {
    t => read(t) == v
  }

  /** accessor.thatIsIn(values) */
  function ThatIsIn<T(!new), F(==)>(read: T -> F, values: seq<F>): (p: T -> bool)
    ensures forall t :: p(t) <==> read(t) in values
  {
    t => read(t) in values
  }

  /** intAccessor.thatGreaterThan(n): strictly greater. */
  function ThatGreaterThan<T(!new)>(read: T -> int, n: int): (p: T -> bool)
    ensures forall t :: p(t) <==> read(t) > n
    ensures forall t :: read(t) == n ==> !p(t)
  {
    t => read(t) > n
  }

  /** intAccessor.thatLessThan(n): strictly less. */
  function ThatLessThan<T(!new)>(read: T -> int, n: int): (p: T -> bool)
    ensures forall t :: p(t) <==> read(t) < n
    ensures forall t :: read(t) == n ==> !p(t)
  {
    t => read(t) < n
  }
}
