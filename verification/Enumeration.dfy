/** Listing a set: the order in which a hash table happens to yield its elements. */
module Enumeration {

  // Every element exactly once.
  ghost predicate Enumerates<T(!new)>(order: seq<T>, elements: set<T>) {
    && (forall x :: x in order <==> x in elements)
    && forall i, j :: 0 <= i < j < |order| ==> order[i] != order[j]
  }

  lemma EnumeratesMore<T(!new)>(order: seq<T>, elements: set<T>, x: T)
    requires Enumerates(order, elements) && x !in elements
    ensures Enumerates(order + [x], elements + {x})
  {
  }

  lemma EnumeratesJoin<T(!new)>(xs: seq<T>, ys: seq<T>, a: set<T>, b: set<T>)
    requires Enumerates(xs, a) && Enumerates(ys, b) && a !! b
    ensures Enumerates(xs + ys, a + b)
  {
    assert forall x :: x in xs + ys <==> x in xs || x in ys;
    assert forall i :: 0 <= i < |xs| ==> xs[i] in a;
    assert forall i :: 0 <= i < |ys| ==> ys[i] in b;
  }

  // Reading a set out in an arbitrary order.
  method Enumerate<T(!new, ==)>(elements: set<T>) returns (order: seq<T>)
    ensures Enumerates(order, elements)
  {
    order := [];
    var todo := elements;
    assert elements - todo == {};
    while todo != {}
      invariant todo <= elements && Enumerates(order, elements - todo)
      decreases todo
    {
      var x :| x in todo;
      EnumeratesMore(order, elements - todo, x);
      assert (elements - todo) + {x} == elements - (todo - {x});
      order, todo := order + [x], todo - {x};
    }
    assert elements - {} == elements;
  }
}
