// The entry points of lcm/porcupine on event histories: renumbering, and joining the verdicts on
// the partitions of a history.
module Checker {
  import opened History
  import opened LinkedEntries
  import opened Search

  // ----- renumbering

  function WithId<V>(e: Event<V>, id: nat): Event<V>
  {
    match e
    case Call(v, _) => Call(v, id)
    case Return(v, _) => Return(v, id)
  }

  // h' is h with every id x replaced by f[x].
  ghost predicate Relabelled<V>(h: seq<Event<V>>, f: map<nat, nat>, h': seq<Event<V>>)
  {
    && |h'| == |h|
    && forall i :: 0 <= i < |h| ==> h[i].id in f && h'[i] == WithId(h[i], f[h[i].id])
  }

  ghost predicate OneToOne(f: map<nat, nat>)
  {
    forall x, y :: x in f && y in f && f[x] == f[y] ==> x == y
  }

  lemma RelabelComplete<V>(h: seq<Event<V>>, f: map<nat, nat>, h': seq<Event<V>>)
    requires Relabelled(h, f, h') && OneToOne(f) && Complete(h)
    ensures Complete(h')
  {
    forall i: nat | i < |h'|
      ensures HasPartner(h', i)
    {
      assert HasPartner(h, i);
      var j :| 0 <= j < |h| && j != i && h[j].id == h[i].id;
      assert h'[j].id == h'[i].id;
    }
  }

  function Renamed(f: map<nat, nat>, order: seq<nat>): seq<nat>
    requires forall x :: x in order ==> x in f
  {
    seq(|order|, i requires 0 <= i < |order| => assert order[i] in order; f[order[i]])
  }

  lemma {:induction false} RelabelMaps<V>(h: seq<Event<V>>, f: map<nat, nat>, h': seq<Event<V>>, x: nat)
    requires Relabelled(h, f, h') && OneToOne(f) && Complete(h) && Complete(h') && x in f
    ensures x in Invoked(h) <==> f[x] in Invoked(h')
    ensures x in Inputs(h) <==> f[x] in Inputs(h')
    ensures x in Outputs(h) <==> f[x] in Outputs(h')
    ensures x in Inputs(h) ==> Inputs(h')[f[x]] == Inputs(h)[x]
    ensures x in Outputs(h) ==> Outputs(h')[f[x]] == Outputs(h)[x]
  {
    forall i: nat | i < |h|
      ensures IsCallOf(h, i, x) <==> IsCallOf(h', i, f[x])
      ensures IsReturnOf(h, i, x) <==> IsReturnOf(h', i, f[x])
    {
    }
    if x in Invoked(h) {
      assert IsCallOf(h', CallPos(h, x), f[x]);
      CompleteMaps(h, CallPos(h, x));
      CompleteMaps(h', CallPos(h, x));
    }
    if f[x] in Invoked(h') {
      assert IsCallOf(h, CallPos(h', f[x]), x);
    }
    if x in Returned(h) {
      assert IsReturnOf(h', ReturnPos(h, x), f[x]);
      CompleteMaps(h, ReturnPos(h, x));
      CompleteMaps(h', ReturnPos(h, x));
    }
    if f[x] in Returned(h') {
      assert IsReturnOf(h, ReturnPos(h', f[x]), x);
    }
  }

  lemma {:induction false} RelabelLegal<S, V>(m: Model<S, V>, h: seq<Event<V>>, f: map<nat, nat>, h': seq<Event<V>>,
                                              s: S, order: seq<nat>)
    requires Relabelled(h, f, h') && OneToOne(f) && Complete(h) && Complete(h')
    requires forall x :: x in order ==> x in f
    requires Legal(m, Inputs(h), Outputs(h), s, order)
    ensures Legal(m, Inputs(h'), Outputs(h'), s, Renamed(f, order))
  {
    hide Inputs, Outputs, Relabelled, Complete, OneToOne;
    if order != [] {
      var x := order[0];
      RelabelMaps(h, f, h', x);
      RelabelLegal(m, h, f, h', m.step(s, Inputs(h)[x], Outputs(h)[x]).1, order[1..]);
      assert Renamed(f, order)[1..] == Renamed(f, order[1..]);
    }
  }

  lemma RelabelRealTime<V>(h: seq<Event<V>>, f: map<nat, nat>, h': seq<Event<V>>, order: seq<nat>)
    requires Relabelled(h, f, h') && OneToOne(f)
    requires forall x :: x in order ==> x in f
    requires NoDup(order) && RespectsRealTime(h, order)
    ensures NoDup(Renamed(f, order)) && RespectsRealTime(h', Renamed(f, order))
  {
    var order' := Renamed(f, order);
    forall i, j | 0 <= i < j < |order'|
      ensures order'[i] != order'[j] && !Precedes(h', order'[j], order'[i])
    {
      assert order[i] in order && order[j] in order && !Precedes(h, order[j], order[i]);
      forall p, q | 0 <= p < q && IsReturnOf(h', p, order'[j]) && IsCallOf(h', q, order'[i])
        ensures IsReturnOf(h, p, order[j]) && IsCallOf(h, q, order[i])
      {
      }
    }
  }

  lemma RelabelMembers<V>(h: seq<Event<V>>, f: map<nat, nat>, h': seq<Event<V>>, order: seq<nat>)
    requires Relabelled(h, f, h') && OneToOne(f) && Complete(h) && Complete(h')
    requires forall x :: x in order <==> x in Invoked(h)
    ensures forall x :: x in order ==> x in f
    ensures forall y :: y in Renamed(f, order) <==> y in Invoked(h')
  {
    forall x | x in order ensures x in f {
      assert IsCallOf(h, CallPos(h, x), x);
    }
    var order' := Renamed(f, order);
    forall y ensures y in order' <==> y in Invoked(h') {
      if y in order' {
        var i :| 0 <= i < |order'| && order'[i] == y;
        assert order[i] in order;
        RelabelMaps(h, f, h', order[i]);
      }
      if y in Invoked(h') {
        var x := h[CallPos(h', y)].id;
        RelabelMaps(h, f, h', x);
        var i :| 0 <= i < |order| && order[i] == x;
        assert order'[i] == y;
      }
    }
  }

  // Linearizability does not depend on how the operations are named.
  lemma RelabelLinearizable<S, V>(m: Model<S, V>, h: seq<Event<V>>, f: map<nat, nat>, h': seq<Event<V>>)
    requires Relabelled(h, f, h') && OneToOne(f) && Complete(h)
    requires Linearizable(m, h)
    ensures Linearizable(m, h')
  {
    hide Inputs, Outputs, Invoked, Relabelled, Complete, OneToOne, Legal;
    RelabelComplete(h, f, h');
    var order :| IsLinearizationOf(m, h, Outputs(h), Invoked(h), m.init, order);
    RelabelMembers(h, f, h', order);
    RelabelRealTime(h, f, h', order);
    RelabelLegal(m, h, f, h', m.init, order);
    assert IsLinearizationOf(m, h', Outputs(h'), Invoked(h'), m.init, Renamed(f, order));
  }

  // The inverse renaming.
  ghost function Inverse(f: map<nat, nat>): map<nat, nat>
  {
    map y | y in f.Values :: var x :| x in f && f[x] == y; x
  }

  lemma InverseRelabels<V>(h: seq<Event<V>>, f: map<nat, nat>, h': seq<Event<V>>)
    requires Relabelled(h, f, h') && OneToOne(f)
    ensures Relabelled(h', Inverse(f), h) && OneToOne(Inverse(f))
  {
    forall i | 0 <= i < |h'|
      ensures h'[i].id in Inverse(f) && h[i] == WithId(h'[i], Inverse(f)[h'[i].id])
    {
      assert f[h[i].id] in f.Values;
    }
  }

  lemma RelabelIff<S, V>(m: Model<S, V>, h: seq<Event<V>>, f: map<nat, nat>, h': seq<Event<V>>)
    requires Relabelled(h, f, h') && OneToOne(f) && Complete(h)
    ensures Complete(h')
    ensures Linearizable(m, h) <==> Linearizable(m, h')
  {
    hide Linearizable, Relabelled, OneToOne, Complete;
    RelabelComplete(h, f, h');
    InverseRelabels(h, f, h');
    if Linearizable(m, h) {
      RelabelLinearizable(m, h, f, h');
    }
    if Linearizable(m, h') {
      RelabelLinearizable(m, h', Inverse(f), h);
    }
  }

  lemma RelabelNothing<V>(events: seq<Event<V>>)
    ensures Relabelled(events[..0], map[], []) && OneToOne(map[])
  {}

  lemma RelabelSnoc<V>(events: seq<Event<V>>, k: nat, f: map<nat, nat>, e: seq<Event<V>>, id: nat)
    requires k < |events| && Relabelled(events[..k], f, e) && OneToOne(f)
    requires f.Keys == set i | 0 <= i < k :: events[i].id
    requires forall x :: x in f ==> f[x] < id
    ensures var v := events[k];
            var f' := if v.id in f then f else f[v.id := id];
            && Relabelled(events[..k + 1], f', e + [WithId(v, f'[v.id])]) && OneToOne(f')
            && f'.Keys == set i | 0 <= i < k + 1 :: events[i].id
  {
    var v := events[k];
    var f' := if v.id in f then f else f[v.id := id];
    var e' := e + [WithId(v, f'[v.id])];
    forall i | 0 <= i < k + 1
      ensures events[..k + 1][i].id in f' && e'[i] == WithId(events[i], f'[events[i].id])
    {
      if i < k {
        assert events[..k][i] == events[i];
      }
    }
  }

  lemma SameOperations<V>(events: seq<Event<V>>, m: map<nat, nat>, e: seq<Event<V>>)
    requires Relabelled(events, m, e) && OneToOne(m)
    ensures |e| == |events| && forall i :: 0 <= i < |e| ==> e[i] == WithId(events[i], e[i].id)
    ensures forall i, j :: 0 <= i < |e| && 0 <= j < |e| ==> (e[i].id == e[j].id <==> events[i].id == events[j].id)
  {}

  // renumber gives the operations the ids 0, 1, 2, ... in the order of their first events.
  method Renumber<V>(events: seq<Event<V>>) returns (e: seq<Event<V>>, ghost m: map<nat, nat>)
    ensures |e| == |events| && forall i :: 0 <= i < |e| ==> e[i] == WithId(events[i], e[i].id)
    ensures forall i, j :: 0 <= i < |e| && 0 <= j < |e| ==> (e[i].id == e[j].id <==> events[i].id == events[j].id)
    ensures Relabelled(events, m, e) && OneToOne(m)
    ensures m.Keys == set i | 0 <= i < |events| :: events[i].id
    ensures forall x :: x in m ==> m[x] < |m|
  {
    hide Relabelled, OneToOne;
    RelabelNothing(events);
    e := [];
    var renumbering: map<nat, nat> := map[];
    var id := 0;
    for k := 0 to |events|
      invariant Relabelled(events[..k], renumbering, e) && OneToOne(renumbering)
      invariant renumbering.Keys == set i | 0 <= i < k :: events[i].id
      invariant id == |renumbering| && forall x :: x in renumbering ==> renumbering[x] < id
    {
      var v := events[k];
      RelabelSnoc(events, k, renumbering, e, id);
      if v.id in renumbering {
        e := e + [WithId(v, renumbering[v.id])];
      } else {
        e := e + [WithId(v, id)];
        renumbering := renumbering[v.id := id];
        id := id + 1;
      }
    }
    assert events[..|events|] == events;
    m := renumbering;
    SameOperations(events, m, e);
  }

  // In a complete history renumbering keeps every id inside the search's bitset.
  lemma RenumberedIds<V>(events: seq<Event<V>>, m: map<nat, nat>, e: seq<Event<V>>)
    requires Complete(events) && Relabelled(events, m, e)
    requires m.Keys == set i | 0 <= i < |events| :: events[i].id
    requires forall x :: x in m ==> m[x] < |m|
    ensures forall i :: 0 <= i < |e| ==> e[i].id < |e| / 2
  {
    CompleteIds(events);
    CompleteCount(events);
    assert m.Keys == Invoked(events);
    assert |m| == |m.Keys|;
  }

  // ----- partitions

  // With no model equality given, states are compared for identity, which is lawful.
  lemma ShallowEqualIsLawful<S(!new), V(!new)>(m: Model<S, V>)
    requires forall s: S, t: S :: m.equal(s, t) <==> s == t
    ensures Lawful(m)
  {}

  function NoPartitionEvent<V>(history: seq<Event<V>>): seq<seq<Event<V>>>
  {
    [history]
  }

  ghost predicate AllComplete<V>(parts: seq<seq<Event<V>>>)
  {
    forall i :: 0 <= i < |parts| ==> Complete(parts[i])
  }

  ghost predicate AllLinearizable<S, V>(m: Model<S, V>, parts: seq<seq<Event<V>>>)
  {
    forall i :: 0 <= i < |parts| ==> Linearizable(m, parts[i])
  }

  // The path of one partition from its events to its verdict.
  method CheckPartition<S(!new), V(!new, 0)>(m: Model<S, V>, subhistory: seq<Event<V>>) returns (ok: bool)
    requires Lawful(m) && Complete(subhistory)
    ensures ok <==> Linearizable(m, subhistory)
  {
    hide Linearizable, Lawful, Complete, Relabelled, OneToOne, Represents;
    var e, renumbering := Renumber(subhistory);
    RelabelIff(m, subhistory, renumbering, e);
    RenumberedIds(subhistory, renumbering, e);
    var l, nodes := MakeLinkedEntries(e);
    ghost var stack;
    ok, stack := CheckSingle(m, l, e, nodes);
  }

  // CheckEvents: the verdicts on the partitions arrive in some order, and the first false one ends
  // the wait. With no partition at all the original waits for ever.
  method CheckEvents<S(!new), V(!new, 0)>(m: Model<S, V>, partition: seq<Event<V>> -> seq<seq<Event<V>>>,
                                          history: seq<Event<V>>, arrival: seq<nat>) returns (ok: bool)
    requires Lawful(m) && partition(history) != []
    requires AllComplete(partition(history))
    requires NoDup(arrival) && forall i: nat :: i in arrival <==> i < |partition(history)|
    ensures ok <==> AllLinearizable(m, partition(history))
  {
    hide Linearizable, Lawful, Complete;
    var partitions := partition(history);
    ok := true;
    for count := 0 to |arrival|
      invariant ok && forall k :: 0 <= k < count ==> arrival[k] in arrival && Linearizable(m, partitions[arrival[k]])
    {
      assert arrival[count] in arrival;
      var result := CheckPartition(m, partitions[arrival[count]]);
      ok := ok && result;
      if !ok {
        return;
      }
    }
    forall i | 0 <= i < |partitions|
      ensures Linearizable(m, partitions[i])
    {
      assert i in arrival;
    }
  }

  // Unpartitioned, the checker decides linearizability of the whole history.
  method CheckHistory<S(!new), V(!new, 0)>(m: Model<S, V>, history: seq<Event<V>>) returns (ok: bool)
    requires Lawful(m) && Complete(history)
    ensures ok <==> Linearizable(m, history)
  {
    var arrival: seq<nat> := [0];
    assert forall i: nat :: i in arrival <==> i == 0;
    ok := CheckEvents(m, NoPartitionEvent, history, arrival);
    assert NoPartitionEvent(history)[0] == history;
  }
}
