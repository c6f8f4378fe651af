/** Maps that respect a commutative and associative operation: sums and
    compositions of such maps respect it too. */
module LinearMaps {

  ghost predicate Associative<W(!new)>(op: (W, W) -> W) {
    forall a, b, c :: op(op(a, b), c) == op(a, op(b, c))
  }

  ghost predicate Commutative<W(!new)>(op: (W, W) -> W) {
    forall a, b :: op(a, b) == op(b, a)
  }

  ghost predicate LinearAt<W>(op: (W, W) -> W, f: W -> W, a: W, b: W) {
    f(op(a, b)) == op(f(a), f(b))
  }

  ghost predicate Linear<W(!new)>(op: (W, W) -> W, f: W -> W) {
    forall a, b :: LinearAt(op, f, a, b)
  }

  function Identity<W>(w: W): W { w }

  lemma Exchange<W(!new)>(op: (W, W) -> W, a: W, b: W, c: W, d: W)
    requires Associative(op) && Commutative(op)
    ensures op(op(a, b), op(c, d)) == op(op(a, c), op(b, d))
  {
    assert op(op(a, b), op(c, d)) == op(a, op(b, op(c, d)));
    assert op(b, op(c, d)) == op(op(b, c), d);
    assert op(op(b, c), d) == op(op(c, b), d);
    assert op(op(c, b), d) == op(c, op(b, d));
    assert op(a, op(c, op(b, d))) == op(op(a, c), op(b, d));
  }

  lemma SumIsLinear<W(!new)>(op: (W, W) -> W, f: W -> W, g: W -> W, s: W -> W)
    requires Associative(op) && Commutative(op) && Linear(op, f) && Linear(op, g)
    requires forall w :: s(w) == op(f(w), g(w))
    ensures Linear(op, s)
  {
    forall a, b ensures LinearAt(op, s, a, b) {
      assert LinearAt(op, f, a, b) && LinearAt(op, g, a, b);
      Exchange(op, f(a), f(b), g(a), g(b));
    }
  }

  lemma CompositionIsLinear<W(!new)>(op: (W, W) -> W, f: W -> W, g: W -> W, c: W -> W)
    requires Linear(op, f) && Linear(op, g) && forall w :: c(w) == g(f(w))
    ensures Linear(op, c)
  {
    forall a, b ensures LinearAt(op, c, a, b) {
      assert LinearAt(op, f, a, b) && LinearAt(op, g, f(a), f(b));
    }
  }

  lemma IdentityIsLinear<W(!new)>(op: (W, W) -> W)
    ensures Linear(op, Identity)
  {
    forall a, b ensures LinearAt(op, Identity, a, b) {}
  }
}
