// Orders of operations, as sequences of their ids, and what remains of one when operations are left
// out.
module Orders {
  import opened History

  // order without the operations in r.
  function Without(order: seq<nat>, r: set<nat>): seq<nat>
  {
    if order == [] then [] else (if order[0] in r then [] else [order[0]]) + Without(order[1..], r)
  }

  lemma {:induction false} WithoutIn(order: seq<nat>, r: set<nat>, x: nat)
    ensures x in Without(order, r) <==> x in order && x !in r
  {
    if order != [] {
      WithoutIn(order[1..], r, x);
    }
  }

  // Two operations keep their order.
  lemma {:induction false} WithoutOrdered(order: seq<nat>, r: set<nat>, i: nat, j: nat) returns (i': nat, j': nat)
    requires i < j < |Without(order, r)|
    ensures i' < j' < |order| && order[i'] == Without(order, r)[i] && order[j'] == Without(order, r)[j]
  {
    var rest := order[1..];
    if order[0] in r {
      i', j' := WithoutOrdered(rest, r, i, j);
      i', j' := i' + 1, j' + 1;
    } else if i > 0 {
      i', j' := WithoutOrdered(rest, r, i - 1, j - 1);
      i', j' := i' + 1, j' + 1;
    } else {
      var y := Without(order, r)[j];
      assert y == Without(rest, r)[j - 1];
      WithoutIn(rest, r, y);
      var k :| 0 <= k < |rest| && rest[k] == y;
      i', j' := 0, k + 1;
    }
  }

  lemma WithoutCons(x: nat, order: seq<nat>, r: set<nat>)
    ensures Without([x] + order, r) == if x in r then Without(order, r) else [x] + Without(order, r)
  {
    assert ([x] + order)[1..] == order;
  }

  // What is left out can be left out in two goes.
  lemma {:induction false} WithoutTwice(order: seq<nat>, r: set<nat>, q: set<nat>)
    requires forall x :: x in order && x in r ==> x in q
    ensures Without(Without(order, r), q) == Without(order, q)
  {
    if order != [] {
      var x, rest := order[0], order[1..];
      assert order == [x] + rest;
      WithoutTwice(rest, r, q);
      WithoutCons(x, rest, r);
      WithoutCons(x, rest, q);
      WithoutCons(x, Without(rest, r), q);
      hide Without;
    }
  }

  lemma {:induction false} WithoutAlike(order: seq<nat>, r: set<nat>, q: set<nat>)
    requires forall x :: x in order ==> (x in r <==> x in q)
    ensures Without(order, r) == Without(order, q)
  {
    if order != [] {
      WithoutAlike(order[1..], r, q);
    }
  }

  lemma {:induction false} WithoutNone(order: seq<nat>, r: set<nat>)
    requires forall x :: x in order ==> x !in r
    ensures Without(order, r) == order
  {
    if order != [] {
      WithoutNone(order[1..], r);
    }
  }

  // The operations left keep what every order has.
  lemma WithoutKeeps<V>(h: seq<Event<V>>, order: seq<nat>, r: set<nat>)
    requires NoDup(order) && RespectsRealTime(h, order)
    ensures NoDup(Without(order, r)) && RespectsRealTime(h, Without(order, r))
  {
    hide Precedes;
    var order' := Without(order, r);
    forall i: nat, j: nat | i < j < |order'|
      ensures order'[i] != order'[j] && !Precedes(h, order'[j], order'[i])
    {
      var i', j' := WithoutOrdered(order, r, i, j);
    }
  }
}
