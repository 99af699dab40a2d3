// The etcd register (lcm/porcupine/etcd.go): its sequential model, and what it means to check a
// history with operations nobody heard back from.
module Register {
  import opened History
  import opened Orders

  // What a history records: the input of a call or the output of a return.
  datatype Value =
    | Input(op: nat, arg1: int, arg2: int)
    | Output(ok: bool, there: bool, value: int, unknown: bool)

  const NIL: int := -1000000

  const READ: nat := 0

  const WRITE: nat := 1

  const CAS: nat := 2

  function Step(st: int, inp: Value, out: Value): (bool, int)
  {
    if !inp.Input? || !out.Output? then (false, st)
    else if inp.op == READ then ((!out.there && st == NIL) || (out.there && st == out.value) || out.unknown, st)
    else if inp.op == WRITE then (true, inp.arg1)
    else ((inp.arg1 == st && out.ok) || (inp.arg1 != st && !out.ok) || out.unknown, if inp.arg1 == st then inp.arg2 else st)
  }

  const Etcd: Model<int, Value> := Model(NIL, Step, (s: int, t: int) => s == t)

  // ----- linearizability of a history with pending operations

  // Some of the pending operations took effect, each with some answer; the others did not.
  ghost predicate TookEffect(h: seq<Event<Value>>, ops: set<nat>, out: map<nat, Value>, order: seq<nat>)
  {
    && Returned(h) <= ops <= Invoked(h)
    && (forall x :: x in Returned(h) ==> x in out && out[x] == Outputs(h)[x])
    && (forall x :: x in ops - Returned(h) ==> x in out && out[x].Output? && !out[x].unknown)
    && IsLinearizationOf(Etcd, h, out, ops, NIL, order)
  }

  // Herlihy and Wing's definition.
  ghost predicate HerlihyWing(h: seq<Event<Value>>)
  {
    exists ops, out, order :: TookEffect(h, ops, out, order)
  }

  // h without the returns of the operations in p.
  function Stripped(h: seq<Event<Value>>, p: set<nat>): seq<Event<Value>>
  {
    if h == [] then []
    else
      var e, rest := h[|h| - 1], Stripped(h[..|h| - 1], p);
      if e.Return? && e.id in p then rest else rest + [e]
  }

  // ----- events one at a time

  lemma {:induction false} StrippedSets(h: seq<Event<Value>>, p: set<nat>)
    ensures Invoked(Stripped(h, p)) == Invoked(h) && Returned(Stripped(h, p)) == Returned(h) - p
  {
    if h != [] {
      var g, e := h[..|h| - 1], h[|h| - 1];
      StrippedSets(g, p);
      assert h == g + [e];
      InvokedSnoc(g, e);
      InvokedSnoc(Stripped(g, p), e);
    }
  }

  lemma NothingPrecedes(x: nat, y: nat)
    ensures !Precedes<Value>([], x, y)
  {}

  lemma {:induction false} StrippedPrecedes(h: seq<Event<Value>>, p: set<nat>, x: nat, y: nat)
    ensures Precedes(Stripped(h, p), x, y) <==> Precedes(h, x, y) && x !in p
  {
    hide Precedes;
    if h != [] {
      var g, e := h[..|h| - 1], h[|h| - 1];
      StrippedPrecedes(g, p, x, y);
      assert h == g + [e];
      PrecedesSnoc(g, e, x, y);
      PrecedesSnoc(Stripped(g, p), e, x, y);
      StrippedSets(g, p);
    } else {
      NothingPrecedes(x, y);
    }
  }

  lemma {:induction false} StrippedEvents(h: seq<Event<Value>>, p: set<nat>, e: Event<Value>)
    requires e in Stripped(h, p)
    ensures e in h
  {
    if e != h[|h| - 1] {
      StrippedEvents(h[..|h| - 1], p, e);
    }
  }

  // Stripping leaves inputs, and the outputs that stay, as they are.
  lemma StrippedMaps(h: seq<Event<Value>>, p: set<nat>)
    requires Complete(h)
    ensures Inputs(Stripped(h, p)) == Inputs(h)
    ensures forall x :: x in Returned(h) - p ==>
              x in Outputs(h) && x in Outputs(Stripped(h, p)) && Outputs(Stripped(h, p))[x] == Outputs(h)[x]
  {
    var g := Stripped(h, p);
    StrippedSets(h, p);
    hide Complete, Stripped;
    forall x | x in Invoked(h)
      ensures Inputs(g)[x] == Inputs(h)[x]
    {
      StrippedEvents(h, p, g[CallPos(g, x)]);
      var j :| 0 <= j < |h| && h[j] == g[CallPos(g, x)];
      CompleteMaps(h, j);
    }
    forall x | x in Returned(h) - p
      ensures Outputs(g)[x] == Outputs(h)[x]
    {
      StrippedEvents(h, p, g[ReturnPos(g, x)]);
      var j :| 0 <= j < |h| && h[j] == g[ReturnPos(g, x)];
      CompleteMaps(h, j);
    }
  }

  // ----- runs

  type Run = map<nat, Value>

  ghost predicate Runs(inp: Run, out: Run, s: int, order: seq<nat>)
  {
    Legal(Etcd, inp, out, s, order)
  }

  lemma {:induction false} SameOutputs(inp: Run, out: Run, out': Run, s: int, order: seq<nat>)
    requires Runs(inp, out, s, order)
    requires forall x :: x in order ==> x in out' && x in out && out'[x] == out[x]
    ensures Runs(inp, out', s, order)
    decreases |order|
  {
    if order != [] {
      SameOutputs(inp, out, out', Step(s, inp[order[0]], out[order[0]]).1, order[1..]);
    }
  }

  // The answer an operation would get in state s.
  function Answer(s: int, inp: Value): Value
    requires inp.Input?
  {
    Output(inp.arg1 == s, s != NIL, s, false)
  }

  // Unknown answers can be replaced by the ones the run gives.
  lemma {:induction false} Told(inp: Run, out: Run, p: set<nat>, s: int, order: seq<nat>) returns (out': Run)
    requires Runs(inp, out, s, order) && NoDup(order)
    ensures Runs(inp, out', s, order)
    ensures forall x :: x in order ==> x in out' && (if x in p then out'[x].Output? && !out'[x].unknown else x in out && out'[x] == out[x])
    ensures forall x :: x in out && x !in p ==> x in out' && out'[x] == out[x]
    decreases |order|
  {
    if order == [] {
      out' := out;
    } else {
      var x, rest := order[0], order[1..];
      assert x !in rest;
      var rested := Told(inp, out, p, Step(s, inp[x], out[x]).1, rest);
      out' := if x in p then rested[x := Answer(s, inp[x])] else rested;
      SameOutputs(inp, rested, out', Step(s, inp[x], out[x]).1, rest);
      assert out'[x] == if x in p then Answer(s, inp[x]) else out[x];
      assert Step(s, inp[x], out'[x]) == (true, Step(s, inp[x], out[x]).1);
    }
  }

  // What an unknown answer is for a history: some answer to every operation in p is unknown.
  ghost predicate AllUnknown(out: Run, p: set<nat>)
  {
    forall x :: x in p ==> x in out && out[x].Output? && out[x].unknown
  }

  ghost predicate AllTyped(inp: Run)
  {
    forall x :: x in inp ==> inp[x].Input?
  }

  ghost predicate IsRead(inp: Run, x: nat)
  {
    x in inp && inp[x].Input? && inp[x].op == READ
  }

  // Reads can be left out of a run, and unknown answers put in for the others.
  lemma {:induction false} ReadsDropped(inp: Run, out: Run, out': Run, p: set<nat>, r: set<nat>, s: int, order: seq<nat>)
    requires Runs(inp, out, s, order) && AllUnknown(out', p)
    requires forall x :: x in order && x in r ==> IsRead(inp, x)
    requires forall x :: x in order && x !in p + r ==> x in out && x in out' && out'[x] == out[x]
    ensures Runs(inp, out', s, Without(order, r))
    decreases |order|
  {
    if order != [] {
      var x := order[0];
      ReadsDropped(inp, out, out', p, r, Step(s, inp[x], out[x]).1, order[1..]);
      assert Without(order, r)[|Without(order, r)| - |Without(order[1..], r)|..] == Without(order[1..], r);
    }
  }

  lemma {:induction false} RunSnoc(inp: Run, out: Run, s: int, order: seq<nat>, x: nat)
    requires Runs(inp, out, s, order) && x in inp && inp[x].Input? && x in out && out[x].Output? && out[x].unknown
    ensures Runs(inp, out, s, order + [x])
    decreases |order|
  {
    if order != [] {
      assert (order + [x])[1..] == order[1..] + [x];
      RunSnoc(inp, out, Step(s, inp[order[0]], out[order[0]]).1, order[1..], x);
    }
  }

  // A read with an unknown answer can go anywhere.
  lemma {:induction false} RunInsert(inp: Run, out: Run, s: int, order: seq<nat>, k: nat, x: nat)
    requires k <= |order| && Runs(inp, out, s, order)
    requires IsRead(inp, x) && x in out && out[x].Output? && out[x].unknown
    ensures Runs(inp, out, s, order[..k] + [x] + order[k..])
    decreases |order|
  {
    var order' := order[..k] + [x] + order[k..];
    if k == 0 {
      assert order'[1..] == order;
    } else {
      assert order'[1..] == order[1..][..k - 1] + [x] + order[1..][k - 1..];
      RunInsert(inp, out, Step(s, inp[order[0]], out[order[0]]).1, order[1..], k - 1, x);
    }
  }

  // ----- orders

  ghost predicate Linearizes(h: seq<Event<Value>>, ops: set<nat>, order: seq<nat>)
  {
    IsLinearizationOf(Etcd, h, Outputs(h), ops, NIL, order)
  }

  ghost predicate UnknownIn(h: seq<Event<Value>>, x: nat)
  {
    x in Outputs(h) && Outputs(h)[x].Output? && Outputs(h)[x].unknown
  }

  // An operation that nothing has to follow goes last.
  lemma AppendUnknown(h: seq<Event<Value>>, ops: set<nat>, order: seq<nat>, x: nat)
    requires Linearizes(h, ops, order) && x !in ops && UnknownIn(h, x) && x in Inputs(h) && Inputs(h)[x].Input?
    requires forall y :: !Precedes(h, x, y)
    ensures Linearizes(h, ops + {x}, order + [x])
  {
    hide Inputs, Outputs, Precedes;
    RunSnoc(Inputs(h), Outputs(h), NIL, order, x);
  }

  lemma PrecedesBack(h: seq<Event<Value>>, y: nat, x: nat, z: nat)
    requires Complete(h) && Precedes(h, y, x) && Precedes(h, x, z)
    ensures Precedes(h, y, z) && y != z
  {
    var i: nat, j: nat :| 0 <= i < j && IsReturnOf(h, i, y) && IsCallOf(h, j, x);
    var k: nat, l: nat :| 0 <= k < l && IsReturnOf(h, k, x) && IsCallOf(h, l, z);
    assert j < k && i < l;
    assert IsReturnOf(h, i, y) && IsCallOf(h, l, z);
  }

  lemma InsertedIn(order: seq<nat>, k: nat, x: nat, y: nat)
    requires k <= |order|
    ensures y in order[..k] + [x] + order[k..] <==> y in order || y == x
  {
    if y in order {
      var i :| 0 <= i < |order| && order[i] == y;
      assert i >= k ==> order[k..][i - k] == y;
    }
  }

  lemma InsertedOrder(h: seq<Event<Value>>, order: seq<nat>, k: nat, x: nat)
    requires k <= |order| && NoDup(order) && RespectsRealTime(h, order) && x !in order
    requires forall i :: 0 <= i < k ==> !Precedes(h, x, order[i])
    requires forall i :: k <= i < |order| ==> !Precedes(h, order[i], x)
    ensures NoDup(order[..k] + [x] + order[k..]) && RespectsRealTime(h, order[..k] + [x] + order[k..])
  {
    hide Precedes;
    var order' := order[..k] + [x] + order[k..];
    forall i, j | 0 <= i < j < |order'|
      ensures order'[i] != order'[j] && !Precedes(h, order'[j], order'[i])
    {
      assert i != k ==> order'[i] == order[if i < k then i else i - 1];
      assert j != k ==> order'[j] == order[if j < k then j else j - 1];
    }
  }

  // A read with an unknown answer has a place in every linearization of others.
  lemma InsertRead(h: seq<Event<Value>>, ops: set<nat>, order: seq<nat>, x: nat) returns (order': seq<nat>)
    requires Complete(h) && Linearizes(h, ops, order) && x !in ops && UnknownIn(h, x) && IsRead(Inputs(h), x)
    ensures Linearizes(h, ops + {x}, order')
  {
    hide Inputs, Outputs, Precedes, Complete;
    var k := |order|;
    while k > 0 && !Precedes(h, order[k - 1], x)
      invariant 0 <= k <= |order| && forall i :: k <= i < |order| ==> !Precedes(h, order[i], x)
    {
      k := k - 1;
    }
    order' := order[..k] + [x] + order[k..];
    RunInsert(Inputs(h), Outputs(h), NIL, order, k, x);
    forall i | 0 <= i < k
      ensures !Precedes(h, x, order[i])
    {
      if Precedes(h, x, order[i]) {
        PrecedesBack(h, order[k - 1], x, order[i]);
      }
    }
    InsertedOrder(h, order, k, x);
    forall y
      ensures y in order' <==> y in ops + {x}
    {
      InsertedIn(order, k, x, y);
    }
  }

  // ----- the verdict

  // A linearization for history g is one for h without the reads in r, if what precedes what in h
  // does so in g but for operations of r, and the answers are g's but for unknown ones.
  lemma DropReads(g: seq<Event<Value>>, h: seq<Event<Value>>, ops: set<nat>, out: Run, order: seq<nat>, p: set<nat>, r: set<nat>)
    requires IsLinearizationOf(Etcd, g, out, ops, NIL, order) && Inputs(g) == Inputs(h)
    requires AllUnknown(Outputs(h), p) && forall x :: x in r ==> IsRead(Inputs(h), x)
    requires forall x :: x in ops && x !in p + r ==> x in out && x in Outputs(h) && Outputs(h)[x] == out[x]
    requires forall x, y :: x !in r && Precedes(h, x, y) ==> Precedes(g, x, y)
    ensures Linearizes(h, ops - r, Without(order, r))
  {
    hide Inputs, Outputs, Precedes, Legal;
    ReadsDropped(Inputs(h), out, Outputs(h), p, r, NIL, order);
    var order' := Without(order, r);
    forall x
      ensures x in order' <==> x in ops - r
    {
      WithoutIn(order, r, x);
    }
    forall i: nat, j: nat | i < j < |order'|
      ensures order'[i] != order'[j] && !Precedes(h, order'[j], order'[i])
    {
      var i', j' := WithoutOrdered(order, r, i, j);
      WithoutIn(order, r, order'[j]);
      assert order'[j] in order';
    }
  }

  lemma InputOf(h: seq<Event<Value>>, x: nat)
    requires x in Invoked(h)
    ensures x in Inputs(h)
  {}

  // All of xs, which nothing has to follow, go last.
  lemma {:induction false} AppendAll(h: seq<Event<Value>>, ops: set<nat>, order: seq<nat>, xs: set<nat>) returns (order': seq<nat>)
    requires Linearizes(h, ops, order) && AllTyped(Inputs(h)) && xs <= Invoked(h) && xs !! ops
    requires forall x :: x in xs ==> UnknownIn(h, x) && forall y :: !Precedes(h, x, y)
    ensures Linearizes(h, ops + xs, order')
    decreases xs
  {
    hide Linearizes, Inputs, Outputs, Precedes;
    if xs == {} {
      order' := order;
      assert ops + xs == ops;
    } else {
      var x :| x in xs;
      InputOf(h, x);
      AppendUnknown(h, ops, order, x);
      order' := AppendAll(h, ops + {x}, order + [x], xs - {x});
      assert ops + {x} + (xs - {x}) == ops + xs;
    }
  }

  lemma {:induction false} InsertAll(h: seq<Event<Value>>, ops: set<nat>, order: seq<nat>, xs: set<nat>) returns (order': seq<nat>)
    requires Complete(h) && Linearizes(h, ops, order) && xs !! ops
    requires forall x :: x in xs ==> UnknownIn(h, x) && IsRead(Inputs(h), x)
    ensures Linearizes(h, ops + xs, order')
    decreases xs
  {
    hide Linearizes, Inputs, Outputs, Complete, UnknownIn, IsRead;
    if xs == {} {
      order' := order;
      assert ops + xs == ops;
    } else {
      var x :| x in xs;
      var more := InsertRead(h, ops, order, x);
      order' := InsertAll(h, ops + {x}, more, xs - {x});
      assert ops + {x} + (xs - {x}) == ops + xs;
    }
  }

  // h is a history in which the operations of p, of which nothing was heard, were given a return
  // with an unknown answer: at the end of the history, or anywhere for a read.
  ghost predicate CompletedWith(h: seq<Event<Value>>, p: set<nat>)
  {
    && Complete(h) && AllTyped(Inputs(h)) && p <= Invoked(h) && AllUnknown(Outputs(h), p)
    && forall x :: x in p && !IsRead(Inputs(h), x) ==> forall y :: !Precedes(h, x, y)
  }

  lemma RunsLegal(inp: Run, out: Run, s: int, order: seq<nat>)
    ensures Runs(inp, out, s, order) <==> Legal(Etcd, inp, out, s, order)
  {}

  lemma IsHerlihyWing(h: seq<Event<Value>>, ops: set<nat>, out: Run, order: seq<nat>)
    requires TookEffect(h, ops, out, order)
    ensures HerlihyWing(h)
  {}

  lemma StrippedRealTime(h: seq<Event<Value>>, p: set<nat>, order: seq<nat>)
    requires RespectsRealTime(h, order)
    ensures RespectsRealTime(Stripped(h, p), order)
  {
    hide Precedes, Stripped;
    forall x, y
      ensures Precedes(Stripped(h, p), x, y) ==> Precedes(h, x, y)
    {
      StrippedPrecedes(h, p, x, y);
    }
  }

  lemma StrippedTookEffect(h: seq<Event<Value>>, p: set<nat>, order: seq<nat>, out: Run)
    requires Complete(h) && p <= Invoked(h) && NoDup(order) && RespectsRealTime(h, order)
    requires forall x :: x in order <==> x in Invoked(h)
    requires Runs(Inputs(h), out, NIL, order)
    requires forall x :: x in order ==>
               x in out && (if x in p then out[x].Output? && !out[x].unknown else x in Outputs(h) && out[x] == Outputs(h)[x])
    ensures TookEffect(Stripped(h, p), Invoked(h), out, order)
  {
    hide Inputs, Outputs, Precedes, Complete, Invoked, Returned, Legal, Runs, Stripped, NoDup, RespectsRealTime;
    StrippedSets(h, p);
    StrippedMaps(h, p);
    CompleteIds(h);
    RunsLegal(Inputs(h), out, NIL, order);
    StrippedRealTime(h, p, order);
  }

  lemma CompletedIsEnough(h: seq<Event<Value>>, p: set<nat>)
    requires CompletedWith(h, p) && Linearizable(Etcd, h)
    ensures HerlihyWing(Stripped(h, p))
  {
    hide Inputs, Outputs, Precedes, Complete, Invoked, Returned, Legal, Runs, HerlihyWing, Stripped, AllUnknown, AllTyped;
    var order :| IsLinearizationOf(Etcd, h, Outputs(h), Invoked(h), NIL, order);
    assert Runs(Inputs(h), Outputs(h), NIL, order) by { RunsLegal(Inputs(h), Outputs(h), NIL, order); }
    var out := Told(Inputs(h), Outputs(h), p, NIL, order);
    StrippedTookEffect(h, p, order, out);
    IsHerlihyWing(Stripped(h, p), Invoked(h), out, order);
  }

  lemma ReadsLeftOut(h: seq<Event<Value>>, p: set<nat>, ops: set<nat>, out: Run, order: seq<nat>, r: set<nat>)
    returns (order': seq<nat>)
    requires CompletedWith(h, p) && TookEffect(Stripped(h, p), ops, out, order)
    requires r == set x | x in p && IsRead(Inputs(h), x)
    ensures Linearizes(h, ops - r, order')
    ensures Returned(h) - p <= ops <= Invoked(h) && Returned(h) == Invoked(h)
    ensures forall x :: x in p ==> UnknownIn(h, x)
  {
    var g := Stripped(h, p);
    StrippedSets(h, p);
    StrippedMaps(h, p);
    CompleteIds(h);
    hide Precedes, Complete, IsLinearizationOf, Stripped, Inputs, Outputs, Invoked, Returned;
    forall x, y | x !in r && Precedes(h, x, y)
      ensures Precedes(g, x, y)
    {
      StrippedPrecedes(h, p, x, y);
    }
    forall x | x in ops && x !in p + r
      ensures x in out && x in Outputs(h) && Outputs(h)[x] == out[x]
    {
      assert x in Returned(h) - p && x in Returned(g);
    }
    hide TookEffect, Linearizes;
    DropReads(g, h, ops, out, order, p, r);
    order' := Without(order, r);
  }

  lemma IsLinearizable(h: seq<Event<Value>>, order: seq<nat>)
    requires Linearizes(h, Invoked(h), order)
    ensures Linearizable(Etcd, h)
  {}

  lemma EnoughIsCompleted(h: seq<Event<Value>>, p: set<nat>)
    requires CompletedWith(h, p) && HerlihyWing(Stripped(h, p))
    ensures Linearizable(Etcd, h)
  {
    hide Precedes, Complete, Stripped, Inputs, Outputs, Linearizes, TookEffect, Linearizable;
    var ops, out, order :| TookEffect(Stripped(h, p), ops, out, order);
    var r := set x | x in p && IsRead(Inputs(h), x);
    var order0 := ReadsLeftOut(h, p, ops, out, order, r);
    CompleteIds(h);
    hide Invoked, Returned;
    var writes := Invoked(h) - ops - r;
    var order1 := AppendAll(h, ops - r, order0, writes);
    var order2 := InsertAll(h, ops - r + writes, order1, r);
    assert ops - r + writes + r == Invoked(h);
    IsLinearizable(h, order2);
  }

  // Completing the pending operations with unknown answers, in any order of the added returns,
  // decides linearizability as Herlihy and Wing define it for the history without them.
  lemma CompletionIsExact(h: seq<Event<Value>>, p: set<nat>)
    requires CompletedWith(h, p)
    ensures Linearizable(Etcd, h) <==> HerlihyWing(Stripped(h, p))
  {
    hide CompletedWith, Linearizable, HerlihyWing, Stripped;
    if Linearizable(Etcd, h) {
      CompletedIsEnough(h, p);
    }
    if HerlihyWing(Stripped(h, p)) {
      EnoughIsCompleted(h, p);
    }
  }

  lemma OutputsOfAll(h: seq<Event<Value>>)
    requires Complete(h)
    ensures forall x :: x in Invoked(h) ==> x in Outputs(h)
  {
    CompleteIds(h);
  }

  lemma ReadLeftOut(h: seq<Event<Value>>, x: nat)
    requires Complete(h) && IsRead(Inputs(h), x) && Linearizable(Etcd, h)
    ensures exists order :: Linearizes(h, Invoked(h) - {x}, order)
  {
    var order :| IsLinearizationOf(Etcd, h, Outputs(h), Invoked(h), NIL, order);
    OutputsOfAll(h);
    hide Complete, Precedes, Inputs, Outputs, Legal;
    DropReads(h, h, Invoked(h), Outputs(h), order, {}, {x});
  }

  // An unknown read can be taken out of a history or put into it without changing the verdict.
  lemma UnknownReadDoesNotMatter(h: seq<Event<Value>>, x: nat)
    requires Complete(h) && x in Invoked(h) && UnknownIn(h, x) && IsRead(Inputs(h), x)
    ensures Linearizable(Etcd, h) <==> exists order :: Linearizes(h, Invoked(h) - {x}, order)
  {
    if exists order :: Linearizes(h, Invoked(h) - {x}, order) {
      hide Linearizes, Linearizable, Complete, UnknownIn;
      var order :| Linearizes(h, Invoked(h) - {x}, order);
      var order' := InsertRead(h, Invoked(h) - {x}, order, x);
      assert Invoked(h) - {x} + {x} == Invoked(h);
      IsLinearizable(h, order');
    }
    if Linearizable(Etcd, h) {
      ReadLeftOut(h, x);
    }
  }
}
