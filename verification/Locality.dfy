// Locality: when the operations of a model fall into keys that do not touch each other's states, a
// history is linearizable exactly when each key's part of it is. This is what a partition function of
// lcm/porcupine/model.go has to promise, and what makes the verdicts on the parts one verdict on the
// whole.
module Locality {
  import opened History
  import opened Orders
  import opened Checker

  // ----- the product model

  ghost function StateAt<S, V>(m: Model<S, V>, st: map<nat, S>, k: nat): S
  {
    if k in st then st[k] else m.init
  }

  ghost function KeyedStep<S, V>(m: Model<S, V>, key: V -> nat, st: map<nat, S>, inp: V, out: V): (bool, map<nat, S>)
  {
    var r := m.step(StateAt(m, st, key(inp)), inp, out);
    (r.0, st[key(inp) := r.1])
  }

  // One state for each key, and an operation acts on the state of its key.
  ghost predicate IsProduct<S(!new), V(!new)>(m: Model<S, V>, key: V -> nat, product: Model<map<nat, S>, V>)
  {
    && product.init == map[]
    && forall st: map<nat, S>, inp: V, out: V :: product.step(st, inp, out) == KeyedStep(m, key, st, inp, out)
  }

  // There is one, whatever equality of states it is given.
  lemma ProductExists<S(!new), V(!new)>(m: Model<S, V>, key: V -> nat, equal: (map<nat, S>, map<nat, S>) -> bool)
    returns (product: Model<map<nat, S>, V>)
    ensures IsProduct(m, key, product) && product.equal == equal
  {
    product := Model(map[], (st, inp, out) => KeyedStep(m, key, st, inp, out), equal);
  }

  // ----- the part of a history that concerns one key

  ghost function Keys<V>(h: seq<Event<V>>, key: V -> nat): map<nat, nat>
  {
    map x | x in Inputs(h) :: key(Inputs(h)[x])
  }

  function Part<V>(h: seq<Event<V>>, keys: map<nat, nat>, k: nat): seq<Event<V>>
  {
    if h == [] then []
    else
      var e, rest := h[|h| - 1], Part(h[..|h| - 1], keys, k);
      if e.id in keys && keys[e.id] == k then rest + [e] else rest
  }

  ghost predicate Concerns(keys: map<nat, nat>, k: nat, x: nat)
  {
    x in keys && keys[x] == k
  }

  lemma {:induction false} PartEvents<V>(h: seq<Event<V>>, keys: map<nat, nat>, k: nat, x: nat)
    ensures x in Invoked(Part(h, keys, k)) <==> x in Invoked(h) && Concerns(keys, k, x)
    ensures x in Returned(Part(h, keys, k)) <==> x in Returned(h) && Concerns(keys, k, x)
  {
    if h != [] {
      var g, e := h[..|h| - 1], h[|h| - 1];
      PartEvents(g, keys, k, x);
      assert h == g + [e];
      InvokedSnoc(g, e);
      InvokedSnoc(Part(g, keys, k), e);
    }
  }

  lemma {:induction false} PartPrecedes<V>(h: seq<Event<V>>, keys: map<nat, nat>, k: nat, x: nat, y: nat)
    ensures Precedes(Part(h, keys, k), x, y) <==> Precedes(h, x, y) && Concerns(keys, k, x) && Concerns(keys, k, y)
  {
    if h != [] {
      hide Precedes;
      var g, e := h[..|h| - 1], h[|h| - 1];
      PartPrecedes(g, keys, k, x, y);
      assert h == g + [e];
      PrecedesSnoc(g, e, x, y);
      PrecedesSnoc(Part(g, keys, k), e, x, y);
      PartEvents(g, keys, k, x);
    }
  }

  // The last event of a part is a later one of the history.
  lemma {:induction false} PartPosition<V>(h: seq<Event<V>>, keys: map<nat, nat>, k: nat, i: nat) returns (p: nat)
    requires i < |Part(h, keys, k)|
    ensures p < |h| && h[p] == Part(h, keys, k)[i] && Concerns(keys, k, h[p].id)
    ensures i == |Part(h[..p], keys, k)|
  {
    var g, e := h[..|h| - 1], h[|h| - 1];
    if i < |Part(g, keys, k)| {
      p := PartPosition(g, keys, k, i);
      assert g[..p] == h[..p];
    } else {
      p := |h| - 1;
    }
  }

  lemma {:induction false} PartGrows<V>(h: seq<Event<V>>, keys: map<nat, nat>, k: nat, p: nat, q: nat)
    requires p <= q <= |h|
    ensures |Part(h[..p], keys, k)| <= |Part(h[..q], keys, k)|
    decreases q
  {
    if p < q {
      assert h[..q][..q - 1] == h[..q - 1];
      PartGrows(h, keys, k, p, q - 1);
    }
  }

  lemma PartComplete<V>(h: seq<Event<V>>, keys: map<nat, nat>, k: nat)
    requires Complete(h)
    ensures Complete(Part(h, keys, k))
  {
    var g := Part(h, keys, k);
    CompleteIds(h);
    forall i: nat, j: nat | i < j < |g| && g[i].id == g[j].id
      ensures g[i].Call? && g[j].Return?
    {
      var p := PartPosition(h, keys, k, i);
      var q := PartPosition(h, keys, k, j);
      if q <= p {
        PartGrows(h, keys, k, q, p);
      }
    }
    forall i: nat | i < |g|
      ensures HasPartner(g, i)
    {
      var p := PartPosition(h, keys, k, i);
      var x := g[i].id;
      PartEvents(h, keys, k, x);
      assert x in Invoked(g) && x in Returned(g);
      assert HasPartner(g, i) by {
        assert IsCallOf(g, CallPos(g, x), x) && IsReturnOf(g, ReturnPos(g, x), x);
      }
    }
  }

  lemma PartMaps<V>(h: seq<Event<V>>, keys: map<nat, nat>, k: nat, x: nat)
    requires Complete(h) && x in Invoked(h) && Concerns(keys, k, x)
    ensures x in Inputs(Part(h, keys, k)) && x in Inputs(h) && Inputs(Part(h, keys, k))[x] == Inputs(h)[x]
    ensures x in Outputs(Part(h, keys, k)) && x in Outputs(h) && Outputs(Part(h, keys, k))[x] == Outputs(h)[x]
  {
    var g := Part(h, keys, k);
    CompleteIds(h);
    PartEvents(h, keys, k, x);
    var p := PartPosition(h, keys, k, CallPos(g, x));
    CompleteMaps(h, p);
    var q := PartPosition(h, keys, k, ReturnPos(g, x));
    CompleteMaps(h, q);
  }

  // ----- runs of the product are runs of every key

  type Record<V> = map<nat, V>

  lemma {:induction false} LegalAlike<S, V>(m: Model<S, V>, inp: Record<V>, out: Record<V>, inp': Record<V>, out': Record<V>,
                                            s: S, order: seq<nat>)
    requires Legal(m, inp, out, s, order)
    requires forall x :: x in order && x in inp && x in out ==>
               x in inp' && x in out' && inp'[x] == inp[x] && out'[x] == out[x]
    ensures Legal(m, inp', out', s, order)
    decreases |order|
  {
    if order != [] {
      LegalAlike(m, inp, out, inp', out', m.step(s, inp[order[0]], out[order[0]]).1, order[1..]);
    }
  }

  // The operations of other keys.
  ghost function Others(keys: map<nat, nat>, k: nat): set<nat>
  {
    set x | x in keys && keys[x] != k
  }

  ghost predicate KeysAgree<V>(keys: map<nat, nat>, inp: Record<V>, key: V -> nat, order: seq<nat>)
  {
    forall x :: x in order ==> x in inp && x in keys && keys[x] == key(inp[x])
  }

  lemma {:induction false} ProductRuns<S(!new), V(!new)>(m: Model<S, V>, key: V -> nat, product: Model<map<nat, S>, V>,
      keys: map<nat, nat>, inp: Record<V>, out: Record<V>, st: map<nat, S>, order: seq<nat>, k: nat)
    requires IsProduct(m, key, product) && KeysAgree(keys, inp, key, order)
    requires Legal(product, inp, out, st, order)
    ensures Legal(m, inp, out, StateAt(m, st, k), Without(order, Others(keys, k)))
    decreases |order|
  {
    if order != [] {
      var x := order[0];
      assert product.step(st, inp[x], out[x]) == KeyedStep(m, key, st, inp[x], out[x]);
      ProductRuns(m, key, product, keys, inp, out, product.step(st, inp[x], out[x]).1, order[1..], k);
      var rest := Without(order[1..], Others(keys, k));
      if keys[x] == k {
        assert ([x] + rest)[1..] == rest;
      } else {
        assert [] + rest == rest;
      }
    }
  }

  lemma {:induction false} RunsProduct<S(!new), V(!new)>(m: Model<S, V>, key: V -> nat, product: Model<map<nat, S>, V>,
      keys: map<nat, nat>, inp: Record<V>, out: Record<V>, st: map<nat, S>, order: seq<nat>)
    requires IsProduct(m, key, product) && KeysAgree(keys, inp, key, order)
    requires forall k :: k in keys.Values ==> Legal(m, inp, out, StateAt(m, st, k), Without(order, Others(keys, k)))
    ensures Legal(product, inp, out, st, order)
    decreases |order|
  {
    if order != [] {
      var x, rest := order[0], order[1..];
      var j := keys[x];
      assert j in keys.Values;
      var mine := Without(rest, Others(keys, j));
      assert Without(order, Others(keys, j)) == [x] + mine && ([x] + mine)[1..] == mine;
      assert product.step(st, inp[x], out[x]) == KeyedStep(m, key, st, inp[x], out[x]);
      var st' := product.step(st, inp[x], out[x]).1;
      forall k | k in keys.Values
        ensures Legal(m, inp, out, StateAt(m, st', k), Without(rest, Others(keys, k)))
      {
        if k != j {
          assert Without(order, Others(keys, k)) == [] + Without(rest, Others(keys, k)) == Without(rest, Others(keys, k));
        }
      }
      RunsProduct(m, key, product, keys, inp, out, st', rest);
    }
  }

  // ----- from the whole to the parts

  // An order of the whole, restricted to one key.
  lemma RestrictedOrder<V>(h: seq<Event<V>>, keys: map<nat, nat>, order: seq<nat>, k: nat)
    requires NoDup(order) && RespectsRealTime(h, order) && keys.Keys == Invoked(h) && forall x :: x in order <==> x in Invoked(h)
    ensures var mine, g := Without(order, Others(keys, k)), Part(h, keys, k);
            NoDup(mine) && RespectsRealTime(g, mine) && forall x :: x in mine <==> x in Invoked(g)
  {
    hide Precedes, Invoked, Part, NoDup;
    var mine, g := Without(order, Others(keys, k)), Part(h, keys, k);
    WithoutKeeps(h, order, Others(keys, k));
    forall x
      ensures x in mine <==> x in Invoked(g)
    {
      WithoutIn(order, Others(keys, k), x);
      PartEvents(h, keys, k, x);
    }
    forall i, j | 0 <= i < j < |mine|
      ensures !Precedes(g, mine[j], mine[i])
    {
      PartPrecedes(h, keys, k, mine[j], mine[i]);
    }
  }

  // A run of operations of one part is a run in the part.
  lemma RestrictedRun<S, V>(m: Model<S, V>, h: seq<Event<V>>, keys: map<nat, nat>, mine: seq<nat>, k: nat)
    requires Complete(h) && Legal(m, Inputs(h), Outputs(h), m.init, mine)
    requires forall x :: x in mine ==> x in Invoked(Part(h, keys, k))
    ensures Legal(m, Inputs(Part(h, keys, k)), Outputs(Part(h, keys, k)), m.init, mine)
  {
    hide Inputs, Outputs, Invoked, Complete, Part, Legal;
    var g := Part(h, keys, k);
    forall x | x in mine
      ensures x in Inputs(h) && x in Outputs(h) && x in Inputs(g) && x in Outputs(g)
      ensures Inputs(g)[x] == Inputs(h)[x] && Outputs(g)[x] == Outputs(h)[x]
    {
      PartEvents(h, keys, k, x);
      PartMaps(h, keys, k, x);
    }
    LegalAlike(m, Inputs(h), Outputs(h), Inputs(g), Outputs(g), m.init, mine);
  }

  lemma InputKeys<V>(h: seq<Event<V>>, key: V -> nat)
    ensures Inputs(h).Keys == Invoked(h) == Keys(h, key).Keys
    ensures forall x :: x in Invoked(h) ==> Keys(h, key)[x] == key(Inputs(h)[x])
  {}

  lemma ProductInit<S(!new), V(!new)>(m: Model<S, V>, key: V -> nat, product: Model<map<nat, S>, V>)
    requires IsProduct(m, key, product)
    ensures product.init == map[]
  {}

  lemma WholeToPart<S(!new), V(!new)>(m: Model<S, V>, key: V -> nat, product: Model<map<nat, S>, V>, h: seq<Event<V>>, k: nat)
    requires IsProduct(m, key, product) && Complete(h) && Linearizable(product, h)
    ensures Linearizable(m, Part(h, Keys(h, key), k))
  {
    hide Precedes, Inputs, Outputs, Invoked, Complete, Part, Legal, NoDup, RespectsRealTime, IsProduct, Keys;
    var keys, g := Keys(h, key), Part(h, Keys(h, key), k);
    var order :| IsLinearizationOf(product, h, Outputs(h), Invoked(h), product.init, order);
    InputKeys(h, key);
    ProductInit(m, key, product);
    ProductRuns(m, key, product, keys, Inputs(h), Outputs(h), map[], order, k);
    var mine := Without(order, Others(keys, k));
    RestrictedOrder(h, keys, order, k);
    RestrictedRun(m, h, keys, mine, k);
    assert IsLinearizationOf(m, g, Outputs(g), Invoked(g), m.init, mine);
  }

  // ----- from the parts to the whole

  ghost function Ids(order: seq<nat>): set<nat>
  {
    set x | x in order
  }

  // What returns before x is called returns before y is, if y is called no earlier.
  lemma CalledLater<V>(h: seq<Event<V>>, z: nat, x: nat, y: nat)
    requires Complete(h) && Precedes(h, z, x) && x in Invoked(h) && y in Invoked(h) && CallPos(h, x) <= CallPos(h, y)
    ensures Precedes(h, z, y)
  {
    var i: nat, j: nat :| 0 <= i < j && IsReturnOf(h, i, z) && IsCallOf(h, j, x);
    assert j == CallPos(h, x);
    assert IsReturnOf(h, i, z) && IsCallOf(h, CallPos(h, y), y);
  }

  // The head of a, called before the head of b, comes after nothing in either.
  lemma HeadFirst<V>(h: seq<Event<V>>, a: seq<nat>, b: seq<nat>)
    requires Complete(h) && a != [] && b != [] && a[0] in Invoked(h) && b[0] in Invoked(h) && a[0] != b[0]
    requires RespectsRealTime(h, a) && RespectsRealTime(h, b) && CallPos(h, a[0]) <= CallPos(h, b[0])
    ensures forall z :: z in a[1..] || z in b ==> !Precedes(h, z, a[0])
  {
    var x, y := a[0], b[0];
    forall z | z in a[1..]
      ensures !Precedes(h, z, x)
    {
      var i :| 0 <= i < |a| - 1 && a[1..][i] == z;
      assert a[i + 1] == z;
    }
    forall z | z in b
      ensures !Precedes(h, z, x)
    {
      if Precedes(h, z, x) {
        CalledLater(h, z, x, y);
        var i :| 0 <= i < |b| && b[i] == z;
        NeverBeforeItself(h, z);
      }
    }
  }

  // x in front of an order nothing of which precedes it.
  lemma Prepended<V>(h: seq<Event<V>>, x: nat, order: seq<nat>)
    requires NoDup(order) && RespectsRealTime(h, order) && x !in order && forall z :: z in order ==> !Precedes(h, z, x)
    ensures NoDup([x] + order) && RespectsRealTime(h, [x] + order)
  {
    hide Precedes;
    var c := [x] + order;
    forall i, j | 0 <= i < j < |c|
      ensures c[i] != c[j] && !Precedes(h, c[j], c[i])
    {
      assert c[j] == order[j - 1] && order[j - 1] in order;
      assert i > 0 ==> c[i] == order[i - 1];
    }
  }

  lemma TailKeeps<V>(h: seq<Event<V>>, order: seq<nat>)
    requires order != [] && NoDup(order) && RespectsRealTime(h, order)
    ensures NoDup(order[1..]) && RespectsRealTime(h, order[1..]) && order[0] !in order[1..]
    ensures forall x :: x in order <==> x == order[0] || x in order[1..]
  {
    hide Precedes;
    assert order == [order[0]] + order[1..];
  }

  lemma {:induction false} WithoutAll(order: seq<nat>)
    ensures Without(order, Ids(order)) == []
  {
    forall x
      ensures x !in Without(order, Ids(order))
    {
      WithoutIn(order, Ids(order), x);
    }
    if Without(order, Ids(order)) != [] {
      assert Without(order, Ids(order))[0] in Without(order, Ids(order));
    }
  }

  // Two orders can be merged when each keeps real-time order: the head called first goes first.
  lemma {:induction false} Merge<V>(h: seq<Event<V>>, a: seq<nat>, b: seq<nat>) returns (c: seq<nat>)
    requires Complete(h) && NoDup(a) && NoDup(b) && RespectsRealTime(h, a) && RespectsRealTime(h, b)
    requires forall x :: x in a ==> x in Invoked(h)
    requires forall x :: x in b ==> x in Invoked(h) && x !in a
    ensures NoDup(c) && RespectsRealTime(h, c) && forall x :: x in c <==> x in a || x in b
    ensures Without(c, Ids(b)) == a && Without(c, Ids(a)) == b
    decreases |a| + |b|
  {
    hide Complete, Precedes, Invoked, NoDup, RespectsRealTime;
    if a == [] {
      c := b;
      WithoutNone(b, Ids(a));
      WithoutAll(b);
    } else if b == [] {
      c := a;
      WithoutNone(a, Ids(b));
      WithoutAll(a);
    } else if CallPos(h, a[0]) <= CallPos(h, b[0]) {
      HeadFirst(h, a, b);
      c := MergeHead(h, a, b);
    } else {
      HeadFirst(h, b, a);
      c := MergeHead(h, b, a);
    }
  }

  lemma {:induction false} MergeHead<V>(h: seq<Event<V>>, a: seq<nat>, b: seq<nat>) returns (c: seq<nat>)
    requires Complete(h) && NoDup(a) && NoDup(b) && RespectsRealTime(h, a) && RespectsRealTime(h, b)
    requires forall x :: x in a ==> x in Invoked(h)
    requires forall x :: x in b ==> x in Invoked(h) && x !in a
    requires a != [] && forall z :: z in a[1..] || z in b ==> !Precedes(h, z, a[0])
    ensures NoDup(c) && RespectsRealTime(h, c) && forall x :: x in c <==> x in a || x in b
    ensures Without(c, Ids(b)) == a && Without(c, Ids(a)) == b
    decreases |a| + |b|, 0
  {
    hide Complete, Precedes, Invoked, NoDup, RespectsRealTime;
    var x, rest := a[0], a[1..];
    TailKeeps(h, a);
    var merged := Merge(h, rest, b);
    c := [x] + merged;
    Prepended(h, x, merged);
    assert c[1..] == merged && a == [x] + rest;
    assert Without(c, Ids(b)) == [x] + Without(merged, Ids(b));
    assert Without(c, Ids(a)) == [] + Without(merged, Ids(a)) == Without(merged, Ids(a));
    WithoutAlike(merged, Ids(a), Ids(rest));
  }

  ghost predicate KeyLegal<S, V>(m: Model<S, V>, h: seq<Event<V>>, keys: map<nat, nat>, order: seq<nat>, k: nat)
  {
    Legal(m, Inputs(h), Outputs(h), m.init, Without(order, Others(keys, k)))
  }

  ghost predicate Merged<S, V>(m: Model<S, V>, h: seq<Event<V>>, keys: map<nat, nat>, ks: set<nat>, order: seq<nat>)
  {
    && NoDup(order) && RespectsRealTime(h, order)
    && (forall x :: x in order <==> x in Invoked(h) && x in keys && keys[x] in ks)
    && forall k :: k in ks ==> KeyLegal(m, h, keys, order, k)
  }

  // The linearization of one part, as an order of the whole history's operations.
  lemma PartOrder<S, V>(m: Model<S, V>, h: seq<Event<V>>, keys: map<nat, nat>, k: nat) returns (order: seq<nat>)
    requires Complete(h) && Linearizable(m, Part(h, keys, k))
    ensures NoDup(order) && RespectsRealTime(h, order) && Legal(m, Inputs(h), Outputs(h), m.init, order)
    ensures forall x :: x in order <==> x in Invoked(h) && Concerns(keys, k, x)
  {
    var g := Part(h, keys, k);
    order :| IsLinearizationOf(m, g, Outputs(g), Invoked(g), m.init, order);
    hide Precedes, Inputs, Outputs, Invoked, Returned, Complete, Part, Legal;
    forall x
      ensures x in order <==> x in Invoked(h) && Concerns(keys, k, x)
    {
      PartEvents(h, keys, k, x);
    }
    forall x | x in order
      ensures x in Inputs(h) && x in Outputs(h)
      ensures x in Inputs(g) ==> Inputs(g)[x] == Inputs(h)[x]
      ensures x in Outputs(g) ==> Outputs(g)[x] == Outputs(h)[x]
    {
      PartMaps(h, keys, k, x);
    }
    LegalAlike(m, Inputs(g), Outputs(g), Inputs(h), Outputs(h), m.init, order);
    forall i, j | 0 <= i < j < |order|
      ensures !Precedes(h, order[j], order[i])
    {
      assert order[i] in order && order[j] in order;
      PartPrecedes(h, keys, k, order[j], order[i]);
    }
  }

  lemma EmptyOrder<V>(h: seq<Event<V>>)
    ensures NoDup([]) && RespectsRealTime(h, [])
  {}

  lemma {:induction false} MergeKeys<S, V>(m: Model<S, V>, h: seq<Event<V>>, keys: map<nat, nat>, ks: set<nat>) returns (order: seq<nat>)
    requires Complete(h) && forall k :: k in ks ==> Linearizable(m, Part(h, keys, k))
    ensures Merged(m, h, keys, ks, order)
    decreases ks
  {
    hide Complete, Linearizable, Precedes, Invoked, Inputs, Outputs, NoDup, RespectsRealTime, Part;
    if ks == {} {
      order := [];
      EmptyOrder(h);
    } else {
      var k :| k in ks;
      var a := MergeKeys(m, h, keys, ks - {k});
      var b := PartOrder(m, h, keys, k);
      order := Merge(h, a, b);
      forall j | j in ks
        ensures KeyLegal(m, h, keys, order, j)
      {
        if j == k {
          WithoutAlike(order, Others(keys, k), Ids(a));
        } else {
          assert KeyLegal(m, h, keys, a, j);
          WithoutTwice(order, Ids(b), Others(keys, j));
        }
      }
    }
  }

  // Orders merged over all keys are an order of the whole, and a run of the product.
  lemma MergedRun<S(!new), V(!new)>(m: Model<S, V>, key: V -> nat, product: Model<map<nat, S>, V>, h: seq<Event<V>>,
                                    order: seq<nat>)
    requires IsProduct(m, key, product) && Merged(m, h, Keys(h, key), Keys(h, key).Values, order)
    ensures forall x :: x in order <==> x in Invoked(h)
    ensures Legal(product, Inputs(h), Outputs(h), product.init, order)
  {
    hide Precedes, Inputs, Outputs, Legal, NoDup, RespectsRealTime, IsProduct;
    InputKeys(h, key);
    hide Keys, Invoked;
    var keys := Keys(h, key);
    forall x
      ensures x in order <==> x in Invoked(h)
    {
      assert x in keys ==> keys[x] in keys.Values;
    }
    forall k | k in keys.Values
      ensures Legal(m, Inputs(h), Outputs(h), StateAt(m, map[], k), Without(order, Others(keys, k)))
    {
      assert KeyLegal(m, h, keys, order, k);
    }
    RunsProduct(m, key, product, keys, Inputs(h), Outputs(h), map[], order);
    ProductInit(m, key, product);
  }

  lemma PartsToWhole<S(!new), V(!new)>(m: Model<S, V>, key: V -> nat, product: Model<map<nat, S>, V>, h: seq<Event<V>>)
    requires IsProduct(m, key, product) && Complete(h)
    requires forall k :: k in Keys(h, key).Values ==> Linearizable(m, Part(h, Keys(h, key), k))
    ensures Linearizable(product, h)
  {
    hide Precedes, Inputs, Outputs, Complete, Part, Legal, NoDup, RespectsRealTime, IsProduct, Keys, Invoked, KeyLegal;
    var keys := Keys(h, key);
    var order := MergeKeys(m, h, keys, keys.Values);
    MergedRun(m, key, product, h, order);
    assert IsLinearizationOf(product, h, Outputs(h), Invoked(h), product.init, order);
  }

  // ----- locality

  // Herlihy and Wing's locality: a history is linearizable exactly when its part for every key is.
  lemma Locality<S(!new), V(!new)>(m: Model<S, V>, key: V -> nat, product: Model<map<nat, S>, V>, h: seq<Event<V>>)
    requires IsProduct(m, key, product) && Complete(h)
    ensures Linearizable(product, h) <==> forall k :: k in Keys(h, key).Values ==> Linearizable(m, Part(h, Keys(h, key), k))
  {
    hide IsProduct, Complete, Linearizable, Keys, Part;
    if Linearizable(product, h) {
      forall k | k in Keys(h, key).Values
        ensures Linearizable(m, Part(h, Keys(h, key), k))
      {
        WholeToPart(m, key, product, h, k);
      }
    }
    if forall k :: k in Keys(h, key).Values ==> Linearizable(m, Part(h, Keys(h, key), k)) {
      PartsToWhole(m, key, product, h);
    }
  }

  // The parts of a history, one for each of its keys.
  ghost predicate PartsByKey<V>(h: seq<Event<V>>, key: V -> nat, parts: seq<seq<Event<V>>>)
  {
    && (forall i :: 0 <= i < |parts| ==> exists k :: k in Keys(h, key).Values && parts[i] == Part(h, Keys(h, key), k))
    && (forall k :: k in Keys(h, key).Values ==> Part(h, Keys(h, key), k) in parts)
  }

  lemma PartsComplete<V>(h: seq<Event<V>>, key: V -> nat, parts: seq<seq<Event<V>>>)
    requires Complete(h) && PartsByKey(h, key, parts)
    ensures AllComplete(parts)
  {
    hide Complete, Keys, Part;
    forall i | 0 <= i < |parts|
      ensures Complete(parts[i])
    {
      var k :| k in Keys(h, key).Values && parts[i] == Part(h, Keys(h, key), k);
      PartComplete(h, Keys(h, key), k);
    }
  }

  // Checking a history partitioned by key decides linearizability of the whole.
  method CheckByKey<S(!new), V(!new, 0)>(m: Model<S, V>, ghost key: V -> nat, ghost product: Model<map<nat, S>, V>,
                                          partition: seq<Event<V>> -> seq<seq<Event<V>>>,
                                          history: seq<Event<V>>, arrival: seq<nat>) returns (ok: bool)
    requires Lawful(m) && IsProduct(m, key, product) && Complete(history)
    requires partition(history) != [] && PartsByKey(history, key, partition(history))
    requires NoDup(arrival) && forall i: nat :: i in arrival <==> i < |partition(history)|
    ensures ok <==> Linearizable(product, history)
  {
    PartsComplete(history, key, partition(history));
    hide Lawful, IsProduct, Complete, Linearizable, Keys, Part;
    ok := CheckEvents(m, partition, history, arrival);
    Locality(m, key, product, history);
    var parts := partition(history);
    if ok {
      forall k | k in Keys(history, key).Values
        ensures Linearizable(m, Part(history, Keys(history, key), k))
      {
        var i :| 0 <= i < |parts| && parts[i] == Part(history, Keys(history, key), k);
      }
    }
  }
}
