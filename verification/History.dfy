// Concurrent histories, sequential models, and linearizability as Herlihy and Wing define it,
// for the complete histories that lcm/porcupine checks.
module History {
  // One event of a history. Events with the same id belong to one operation.
  datatype Event<V> = Call(value: V, id: nat) | Return(value: V, id: nat)

  // A sequential specification. `step` takes a state, an input and an output, and says whether
  // the operation is legal there and what the next state is.
  datatype Model<!S, !V> = Model(init: S, step: (S, V, V) -> (bool, S), equal: (S, S) -> bool)

  ghost predicate SameStep<S, V>(m: Model<S, V>, s: S, t: S, i: V, o: V)
  {
    && m.step(s, i, o).0 == m.step(t, i, o).0
    && (m.step(s, i, o).0 ==> m.equal(m.step(s, i, o).1, m.step(t, i, o).1))
  }

  // What a caller owes for `equal`: it is an equivalence that the step function respects.
  ghost predicate Lawful<S(!new), V(!new)>(m: Model<S, V>)
  {
    && (forall s: S :: m.equal(s, s))
    && (forall s: S, t: S :: m.equal(s, t) ==> m.equal(t, s))
    && (forall s: S, t: S, i: V, o: V :: m.equal(s, t) ==> SameStep(m, s, t, i, o))
  }

  ghost predicate HasPartner<V>(h: seq<Event<V>>, i: nat)
    requires i < |h|
  {
    exists j :: 0 <= j < |h| && j != i && h[j].id == h[i].id
  }

  // An operation has one call and one return at most, the call first.
  ghost predicate CallsFirst<V>(h: seq<Event<V>>)
  {
    forall i, j :: 0 <= i < j < |h| && h[i].id == h[j].id ==> h[i].Call? && h[j].Return?
  }

  // Every operation has exactly one call, followed later by exactly one return.
  ghost predicate Complete<V>(h: seq<Event<V>>)
  {
    && CallsFirst(h)
    && (forall i: nat :: i < |h| ==> HasPartner(h, i))
  }

  ghost predicate IsCallOf<V>(h: seq<Event<V>>, i: nat, x: nat)
  {
    i < |h| && h[i].Call? && h[i].id == x
  }

  ghost predicate IsReturnOf<V>(h: seq<Event<V>>, i: nat, x: nat)
  {
    i < |h| && h[i].Return? && h[i].id == x
  }

  ghost function Invoked<V>(h: seq<Event<V>>): set<nat>
  {
    set i | 0 <= i < |h| && h[i].Call? :: h[i].id
  }

  ghost function Returned<V>(h: seq<Event<V>>): set<nat>
  {
    set i | 0 <= i < |h| && h[i].Return? :: h[i].id
  }

  ghost function CallPos<V>(h: seq<Event<V>>, x: nat): (i: nat)
    requires x in Invoked(h)
    ensures IsCallOf(h, i, x)
  {
    var i: nat :| i < |h| && h[i].Call? && h[i].id == x;
    i
  }

  ghost function ReturnPos<V>(h: seq<Event<V>>, x: nat): (i: nat)
    requires x in Returned(h)
    ensures IsReturnOf(h, i, x)
  {
    var i: nat :| i < |h| && h[i].Return? && h[i].id == x;
    i
  }

  ghost function Inputs<V>(h: seq<Event<V>>): map<nat, V>
  {
    map x | x in Invoked(h) :: h[CallPos(h, x)].value
  }

  ghost function Outputs<V>(h: seq<Event<V>>): map<nat, V>
  {
    map x | x in Returned(h) :: h[ReturnPos(h, x)].value
  }

  // Operation x returns before operation y is called.
  ghost predicate Precedes<V>(h: seq<Event<V>>, x: nat, y: nat)
  {
    exists i, j :: 0 <= i < j && IsReturnOf(h, i, x) && IsCallOf(h, j, y)
  }

  ghost predicate NoDup(order: seq<nat>)
  {
    forall i, j :: 0 <= i < j < |order| ==> order[i] != order[j]
  }

  ghost predicate RespectsRealTime<V>(h: seq<Event<V>>, order: seq<nat>)
  {
    forall i, j :: 0 <= i < j < |order| ==> !Precedes(h, order[j], order[i])
  }

  // The operations of `order`, run one after another from state s, are all accepted.
  ghost predicate Legal<S, V>(m: Model<S, V>, inp: map<nat, V>, out: map<nat, V>, s: S, order: seq<nat>)
  {
    order == [] ||
    (var x := order[0];
     && x in inp && x in out
     && m.step(s, inp[x], out[x]).0
     && Legal(m, inp, out, m.step(s, inp[x], out[x]).1, order[1..]))
  }

  // A sequential order of the operations in `ops` that keeps real-time order and is a legal run.
  ghost predicate IsLinearizationOf<S, V>(m: Model<S, V>, h: seq<Event<V>>, out: map<nat, V>,
                                          ops: set<nat>, s: S, order: seq<nat>)
  {
    && NoDup(order)
    && (forall x :: x in order <==> x in ops)
    && RespectsRealTime(h, order)
    && Legal(m, Inputs(h), out, s, order)
  }

  ghost predicate Linearizable<S, V>(m: Model<S, V>, h: seq<Event<V>>)
  {
    exists order :: IsLinearizationOf(m, h, Outputs(h), Invoked(h), m.init, order)
  }

  // ----- complete histories

  lemma CompleteIds<V>(h: seq<Event<V>>)
    requires Complete(h)
    ensures Invoked(h) == Returned(h)
    ensures forall i :: 0 <= i < |h| ==> h[i].id in Invoked(h)
  {
    forall i: nat | i < |h|
      ensures h[i].id in Invoked(h) && h[i].id in Returned(h)
    {
      assert HasPartner(h, i);
      var j :| 0 <= j < |h| && j != i && h[j].id == h[i].id;
      assert h[if i < j then i else j].Call? && h[if i < j then j else i].Return?;
    }
  }

  // The value recorded for an operation is the one its call, or its return, carries.
  lemma EventMaps<V>(h: seq<Event<V>>, i: nat)
    requires CallsFirst(h) && i < |h|
    ensures h[i].Call? ==> h[i].id in Inputs(h) && Inputs(h)[h[i].id] == h[i].value
    ensures h[i].Return? ==> h[i].id in Outputs(h) && Outputs(h)[h[i].id] == h[i].value
  {
    if h[i].Call? {
      assert CallPos(h, h[i].id) == i;
    } else {
      assert ReturnPos(h, h[i].id) == i;
    }
  }

  lemma CompleteMaps<V>(h: seq<Event<V>>, i: nat)
    requires Complete(h) && i < |h|
    ensures h[i].Call? ==> h[i].id in Inputs(h) && Inputs(h)[h[i].id] == h[i].value
    ensures h[i].Return? ==> h[i].id in Outputs(h) && Outputs(h)[h[i].id] == h[i].value
  {
    EventMaps(h, i);
  }

  lemma InvokedSnoc<V>(g: seq<Event<V>>, e: Event<V>)
    ensures Invoked(g + [e]) == if e.Call? then Invoked(g) + {e.id} else Invoked(g)
    ensures Returned(g + [e]) == if e.Return? then Returned(g) + {e.id} else Returned(g)
  {
    var h := g + [e];
    assert h[|g|] == e && h[..|g|] == g;
    forall x | x in Invoked(g) ensures x in Invoked(h) {
      var i :| 0 <= i < |g| && g[i].Call? && g[i].id == x;
      assert h[i] == g[i];
    }
    forall x | x in Returned(g) ensures x in Returned(h) {
      var i :| 0 <= i < |g| && g[i].Return? && g[i].id == x;
      assert h[i] == g[i];
    }
  }

  lemma {:induction false} PrefixCount<V>(h: seq<Event<V>>, k: nat)
    requires Complete(h) && k <= |h|
    ensures k == |Invoked(h[..k])| + |Returned(h[..k])|
  {
    if k > 0 {
      PrefixCount(h, k - 1);
      var g, x := h[..k - 1], h[k - 1].id;
      assert h[..k] == g + [h[k - 1]];
      if h[k - 1].Call? {
        assert Invoked(h[..k]) == Invoked(g) + {x} by { assert IsCallOf(h[..k], k - 1, x); InvokedSnoc(g, h[k - 1]); }
        assert x !in Invoked(g);
        assert Returned(h[..k]) == Returned(g) by { InvokedSnoc(g, h[k - 1]); }
      } else {
        InvokedSnoc(g, h[k - 1]);
        assert x !in Returned(g);
      }
    }
  }

  // A complete history has two events per operation.
  lemma {:induction false} CompleteCount<V>(h: seq<Event<V>>)
    requires Complete(h)
    ensures |h| == 2 * |Invoked(h)|
  {
    PrefixCount(h, |h|);
    CompleteIds(h);
    assert h[..|h|] == h;
  }

  lemma PrecedesSnoc<V>(h: seq<Event<V>>, e: Event<V>, x: nat, y: nat)
    ensures Precedes(h + [e], x, y) <==> Precedes(h, x, y) || (e.Call? && e.id == y && x in Returned(h))
  {
    var g := h + [e];
    if Precedes(h, x, y) {
      var i: nat, j: nat :| 0 <= i < j && IsReturnOf(h, i, x) && IsCallOf(h, j, y);
      assert IsReturnOf(g, i, x) && IsCallOf(g, j, y);
    }
    if e.Call? && e.id == y && x in Returned(h) {
      assert IsReturnOf(g, ReturnPos(h, x), x) && IsCallOf(g, |h|, y);
    }
    if Precedes(g, x, y) {
      var i: nat, j: nat :| 0 <= i < j && IsReturnOf(g, i, x) && IsCallOf(g, j, y);
      assert IsReturnOf(h, i, x);
      assert j < |h| ==> IsCallOf(h, j, y);
    }
  }

  lemma NeverBeforeItself<V>(h: seq<Event<V>>, x: nat)
    requires Complete(h)
    ensures !Precedes(h, x, x)
  {}
}
