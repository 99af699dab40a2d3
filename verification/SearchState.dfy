// The invariant of the linearizability search: the stack of partial linearizations, the live list
// at each level, and what the cache knows. Heap-free: only the order of the nodes matters here.
module SearchState {
  import opened Basics
  import opened History
  import opened LinkedEntries
  import opened SearchTheory

  // `list` is the head followed by the nodes of all operations not in lin, in history order.
  ghost predicate Live<V>(nodes: seq<Node<V>>, head: Node<V>, lin: set<nat>, list: seq<Node<V>>)
  {
    && |list| >= 1 && list[0] == head && head !in nodes
    && (forall k :: 1 <= k < |list| ==>
          list[k].pos < |nodes| && nodes[list[k].pos] == list[k] && list[k].id !in lin)
    && (forall k, k' :: 1 <= k < k' < |list| ==> list[k].pos < list[k'].pos)
    && (forall p :: 0 <= p < |nodes| && nodes[p].id !in lin ==> nodes[p] in list)
  }

  // One level of the search: the configuration, its live list, the entry under consideration at
  // index i and, once that entry has been chosen, its return at index j.
  datatype Level<S, V> = Level(list: seq<Node<V>>, i: nat, j: nat, lin: set<nat>, state: S)

  ghost predicate Checked<S, V>(m: Model<S, V>, h: seq<Event<V>>, nodes: seq<Node<V>>, head: Node<V>, lv: Level<S, V>)
  {
    && Live(nodes, head, lv.lin, lv.list)
    && 1 <= lv.i
    && forall k :: 1 <= k < lv.i && k < |lv.list| ==>
         lv.list[k].matching != null && Tried(m, h, lv.lin, lv.state, lv.list[k].id)
  }

  // next is the level entered by choosing the entry at lv.i.
  ghost predicate Chosen<S, V>(m: Model<S, V>, h: seq<Event<V>>, lv: Level<S, V>, next: Level<S, V>)
  {
    && 1 <= lv.i < lv.j < |lv.list| && lv.list[lv.i].matching == lv.list[lv.j]
    && var x := lv.list[lv.i].id;
       && lv.list[lv.j].id == x
       && Enabled(h, lv.lin, x) && StepOk(m, h, lv.state, x)
       && next.lin == lv.lin + {x} && next.state == After(m, h, lv.state, x)
       && next.list == WithoutPair(lv.list, lv.i, lv.j)
  }

  // lv is reached by k steps from the initial configuration.
  ghost predicate AtDepth<S, V>(m: Model<S, V>, h: seq<Event<V>>, lv: Level<S, V>, k: nat)
  {
    |lv.lin| == k && (lv.lin, lv.state) in Configs(m, h, k)
  }

  // lv's chosen operation is linearized in lin.
  ghost predicate Took<S, V>(lv: Level<S, V>, lin: set<nat>)
  {
    lv.i < |lv.list| && lv.list[lv.i].id in lin
  }

  // The levels on the calls stack, and on top the current one.
  ghost predicate PathOk<S, V>(m: Model<S, V>, h: seq<Event<V>>, nodes: seq<Node<V>>, head: Node<V>, path: seq<Level<S, V>>)
  {
    && |path| >= 1 && path[0].lin == {} && path[0].state == m.init
    && (forall k :: 0 <= k < |path| ==> Checked(m, h, nodes, head, path[k]))
    && (forall k :: 0 <= k < |path| - 1 ==> Chosen(m, h, path[k], path[k + 1]))
    && (forall k :: 0 <= k < |path| ==> AtDepth(m, h, path[k], k))
    && (forall k, k' :: 0 <= k < k' < |path| ==> Took(path[k], path[k'].lin))
    && (var top := path[|path| - 1]; |top.list| == 1 || top.i < |top.list|)
  }

  ghost predicate OnPath<S, V>(path: seq<Level<S, V>>, c: (set<nat>, S))
  {
    exists k :: 1 <= k < |path| && c == (path[k].lin, path[k].state)
  }

  // Every cached configuration is dead or is one of those the stack is standing on.
  ghost predicate SeenOk<S, V>(m: Model<S, V>, h: seq<Event<V>>, path: seq<Level<S, V>>, seen: set<(set<nat>, S)>)
  {
    && seen <= Universe(m, h)
    && forall c :: c in seen ==> !Finishable(m, h, c.0, c.1) || OnPath(path, c)
  }

  // ----- the live list

  lemma {:induction false} NextReturnFound<V>(h: seq<Event<V>>, x: nat, p: nat, q: nat)
    requires p <= q && IsReturnOf(h, q, x)
    ensures NextReturn(h, x, p) < |h|
    decreases q - p
  {
    if p < q && !IsReturnOf(h, p, x) {
      NextReturnFound(h, x, p + 1, q);
    }
  }

  // In a complete history a node is a call exactly when it has a return, which is still in the list.
  lemma LiveReturn<V>(h: seq<Event<V>>, nodes: seq<Node<V>>, head: Node<V>, lin: set<nat>, list: seq<Node<V>>, i: nat)
    returns (j: nat)
    requires Complete(h) && Represents(nodes, h, 0) && Live(nodes, head, lin, list)
    requires 1 <= i < |list|
    ensures (list[i].matching != null) <==> h[list[i].pos].Call?
    ensures list[i].matching != null ==> i < j < |list| && list[j] == list[i].matching && list[j].id == list[i].id
    ensures list[i].matching != null ==> h[list[j].pos].Return?
  {
    var p := list[i].pos;
    assert NodeFor(nodes, h, 0, p);
    j := 0;
    if h[p].Call? {
      CompleteIds(h);
      var q := ReturnPos(h, h[p].id);
      NextReturnFound(h, h[p].id, p, q);
      var r := NextReturn(h, h[p].id, p);
      assert NodeFor(nodes, h, 0, r);
      assert nodes[r] in list;
      j :| 0 <= j < |list| && list[j] == nodes[r];
    }
  }

  // The index, before i and j were taken out, of what is now at k.
  ghost function Before(i: nat, j: nat, k: nat): nat
    requires i < j
  {
    if k < i then k else if k < j - 1 then k + 1 else k + 2
  }

  lemma WithoutPairAt<T>(list: seq<T>, i: nat, j: nat)
    requires i < j < |list|
    ensures |WithoutPair(list, i, j)| == |list| - 2
    ensures forall k :: 0 <= k < |list| - 2 ==> WithoutPair(list, i, j)[k] == list[Before(i, j, k)]
    ensures forall k :: 0 <= k < |list| && k != i && k != j ==> list[k] in WithoutPair(list, i, j)
  {
    var list2 := WithoutPair(list, i, j);
    forall k | 0 <= k < |list| && k != i && k != j
      ensures list[k] in list2
    {
      assert list2[if k < i then k else if k < j then k - 1 else k - 2] == list[k];
    }
  }

  lemma OnlyTwoEvents<V>(h: seq<Event<V>>, c: nat, r: nat, p: nat)
    requires Complete(h) && c < |h| && r < |h| && p < |h|
    requires h[c].Call? && h[r].Return? && h[c].id == h[r].id == h[p].id
    ensures p == c || p == r
  {}

  lemma OthersRemain<V>(h: seq<Event<V>>, nodes: seq<Node<V>>, head: Node<V>, lin: set<nat>, list: seq<Node<V>>,
                        i: nat, j: nat, k: nat)
    requires Complete(h) && Represents(nodes, h, 0) && Live(nodes, head, lin, list)
    requires 1 <= i < j < |list| && list[i].id == list[j].id
    requires h[list[i].pos].Call? && h[list[j].pos].Return?
    requires 1 <= k < |list| && k != i && k != j
    ensures list[k].id != list[i].id
  {
    assert NodeFor(nodes, h, 0, list[k].pos) && NodeFor(nodes, h, 0, list[i].pos) && NodeFor(nodes, h, 0, list[j].pos);
    if list[k].id == list[i].id {
      OnlyTwoEvents(h, list[i].pos, list[j].pos, list[k].pos);
    }
  }

  // Taking out a call and its return leaves the live list of one more linearized operation.
  lemma LiveLift<V>(h: seq<Event<V>>, nodes: seq<Node<V>>, head: Node<V>, lin: set<nat>, list: seq<Node<V>>, i: nat, j: nat)
    requires Complete(h) && Represents(nodes, h, 0) && Live(nodes, head, lin, list)
    requires 1 <= i < j < |list| && list[i].id == list[j].id
    requires h[list[i].pos].Call? && h[list[j].pos].Return?
    ensures Live(nodes, head, lin + {list[i].id}, WithoutPair(list, i, j))
  {
    hide Represents, Complete, WithoutPair;
    var x, list2 := list[i].id, WithoutPair(list, i, j);
    WithoutPairAt(list, i, j);
    forall k | 1 <= k < |list2|
      ensures list2[k] == list[Before(i, j, k)] && list2[k].id != x
    {
      OthersRemain(h, nodes, head, lin, list, i, j, Before(i, j, k));
    }
    forall p | 0 <= p < |nodes| && nodes[p].id !in lin + {x}
      ensures nodes[p] in list2
    {
      assert nodes[p] in list;
      var k :| 0 <= k < |list| && list[k] == nodes[p];
    }
  }

  // When everything up to the entry is a call, remaining operations return after it.
  lemma ReturnsLater<V>(h: seq<Event<V>>, nodes: seq<Node<V>>, head: Node<V>, lin: set<nat>, list: seq<Node<V>>, i: nat, q: nat)
    requires Complete(h) && Represents(nodes, h, 0) && Live(nodes, head, lin, list)
    requires 1 <= i < |list| && forall k :: 1 <= k <= i ==> list[k].matching != null
    requires q < |h| && h[q].Return? && h[q].id !in lin
    ensures list[i].pos < q
  {
    assert NodeFor(nodes, h, 0, q);
    assert nodes[q] in list;
    var k :| 0 <= k < |list| && list[k] == nodes[q];
    var _ := LiveReturn(h, nodes, head, lin, list, k);
  }

  // So no remaining operation has to come before such an entry.
  lemma CandidateEnabled<V>(h: seq<Event<V>>, nodes: seq<Node<V>>, head: Node<V>, lin: set<nat>, list: seq<Node<V>>, i: nat)
    requires Complete(h) && Represents(nodes, h, 0) && Live(nodes, head, lin, list)
    requires 1 <= i < |list| && forall k :: 1 <= k <= i ==> list[k].matching != null
    ensures Enabled(h, lin, list[i].id)
  {
    var x, p := list[i].id, list[i].pos;
    var _ := LiveReturn(h, nodes, head, lin, list, i);
    assert NodeFor(nodes, h, 0, p);
    assert IsCallOf(h, p, x);
    forall q: nat | q < |h| && h[q].Return? && h[q].id !in lin
      ensures p < q
    {
      ReturnsLater(h, nodes, head, lin, list, i, q);
    }
  }

  // At the first return of the list every enabled operation has been tried.
  lemma ReturnIsDeadEnd<S, V>(m: Model<S, V>, h: seq<Event<V>>, nodes: seq<Node<V>>, head: Node<V>, lv: Level<S, V>)
    requires Complete(h) && Represents(nodes, h, 0) && Checked(m, h, nodes, head, lv)
    requires lv.i < |lv.list| && lv.list[lv.i].matching == null
    ensures !Finishable(m, h, lv.lin, lv.state)
  {
    var e := lv.list[lv.i];
    var y := e.id;
    var _ := LiveReturn(h, nodes, head, lv.lin, lv.list, lv.i);
    assert NodeFor(nodes, h, 0, e.pos);
    CompleteIds(h);
    assert y in Invoked(h) - lv.lin;
    forall x | Enabled(h, lv.lin, x)
      ensures Tried(m, h, lv.lin, lv.state, x)
    {
      var c := CallPos(h, x);
      assert NodeFor(nodes, h, 0, c);
      assert nodes[c] in lv.list;
      var k :| 0 <= k < |lv.list| && lv.list[k] == nodes[c];
      assert !Precedes(h, y, x);
      assert !(e.pos < c && IsReturnOf(h, e.pos, y) && IsCallOf(h, c, x));
      assert 1 <= k < lv.i;
    }
    DeadEnd(m, h, lv.lin, lv.state);
  }

  // ----- the transitions of the search

  lemma Start<S, V>(m: Model<S, V>, h: seq<Event<V>>, nodes: seq<Node<V>>, head: Node<V>)
    requires Represents(nodes, h, 0) && head !in nodes
    ensures PathOk(m, h, nodes, head, [Level([head] + nodes, 1, 0, {}, m.init)])
  {
    var list := [head] + nodes;
    forall k | 1 <= k < |list|
      ensures list[k].pos == k - 1 && nodes[list[k].pos] == list[k]
    {
      assert NodeFor(nodes, h, 0, k - 1);
    }
    forall p | 0 <= p < |nodes|
      ensures nodes[p] in list
    {
      assert list[p + 1] == nodes[p];
    }
    assert Live(nodes, head, {}, list);
  }

  // The step the search computes from the two nodes is the step of the operation.
  lemma EntryStep<S, V>(m: Model<S, V>, h: seq<Event<V>>, nodes: seq<Node<V>>, head: Node<V>, lv: Level<S, V>, j: nat)
    requires Complete(h) && Represents(nodes, h, 0) && Live(nodes, head, lv.lin, lv.list)
    requires 1 <= lv.i < j < |lv.list| && lv.list[lv.i].matching == lv.list[j] && lv.list[lv.i].id == lv.list[j].id
    requires h[lv.list[lv.i].pos].Call? && h[lv.list[j].pos].Return?
    ensures var x, r := lv.list[lv.i].id, m.step(lv.state, lv.list[lv.i].value, lv.list[j].value);
            (StepOk(m, h, lv.state, x) <==> r.0) && (r.0 ==> After(m, h, lv.state, x) == r.1)
  {
    assert NodeFor(nodes, h, 0, lv.list[lv.i].pos) && NodeFor(nodes, h, 0, lv.list[j].pos);
    CompleteMaps(h, lv.list[lv.i].pos);
    CompleteMaps(h, lv.list[j].pos);
  }

  // The entry at the top was tried: move on to the next one, which exists because the
  // entry's return is still ahead.
  lemma Advance<S, V>(m: Model<S, V>, h: seq<Event<V>>, nodes: seq<Node<V>>, head: Node<V>, path: seq<Level<S, V>>)
    requires Complete(h) && Represents(nodes, h, 0) && PathOk(m, h, nodes, head, path)
    requires var top := path[|path| - 1];
             && top.i < |top.list| && top.list[top.i].matching != null
             && Tried(m, h, top.lin, top.state, top.list[top.i].id)
    ensures var top := path[|path| - 1];
            top.i + 1 < |top.list| && PathOk(m, h, nodes, head, path[|path| - 1 := top.(i := top.i + 1)])
  {
    hide Live, Tried, Enabled, StepOk, Configs, Represents, Complete;
    var d := |path| - 1;
    var top := path[d];
    var _ := LiveReturn(h, nodes, head, top.lin, top.list, top.i);
    var path' := path[d := top.(i := top.i + 1)];
    assert Checked(m, h, nodes, head, path'[d]);
    forall k | 0 <= k < |path'| - 1
      ensures Chosen(m, h, path'[k], path'[k + 1])
    {
      assert Chosen(m, h, path[k], path[k + 1]);
    }
    forall k | 0 <= k < |path'|
      ensures AtDepth(m, h, path'[k], k)
    {
      assert AtDepth(m, h, path[k], k);
    }
    forall k, k' | 0 <= k < k' < |path'|
      ensures Took(path'[k], path'[k'].lin)
    {
      assert Took(path[k], path[k'].lin);
    }
  }

  // The entry at the top, returning at index j, is linearized next and leads to state s.
  ghost function Pushed<S, V>(path: seq<Level<S, V>>, j: nat, s: S): seq<Level<S, V>>
    requires |path| >= 1 && path[|path| - 1].i < j < |path[|path| - 1].list|
  {
    var d := |path| - 1;
    var top := path[d];
    var x := top.list[top.i].id;
    path[d := top.(j := j)]
      + [Level(WithoutPair(top.list, top.i, j), 1, 0, top.lin + {x}, s)]
  }

  lemma DeeperConfig<S, V>(m: Model<S, V>, h: seq<Event<V>>, nodes: seq<Node<V>>, head: Node<V>, top: Level<S, V>, d: nat)
    requires Live(nodes, head, top.lin, top.list) && AtDepth(m, h, top, d)
    requires 1 <= top.i < |top.list| && StepOk(m, h, top.state, top.list[top.i].id)
    ensures var x := top.list[top.i].id;
            |top.lin + {x}| == d + 1
            && (top.lin + {x}, After(m, h, top.state, x)) in Configs(m, h, d + 1)
  {
    var x := top.list[top.i].id;
    var c := (top.lin, top.state);
    assert c in Configs(m, h, d) && x in Invoked(h);
    assert (c.0 + {x}, After(m, h, c.1, x)) in Configs(m, h, d + 1);
  }

  lemma Push<S, V>(m: Model<S, V>, h: seq<Event<V>>, nodes: seq<Node<V>>, head: Node<V>, path: seq<Level<S, V>>, j: nat, s: S)
    requires Complete(h) && Represents(nodes, h, 0) && PathOk(m, h, nodes, head, path)
    requires var top := path[|path| - 1];
             && top.i < j < |top.list| && top.list[top.i].matching == top.list[j]
             && top.list[top.i].id == top.list[j].id && h[top.list[j].pos].Return?
             && StepOk(m, h, top.state, top.list[top.i].id) && s == After(m, h, top.state, top.list[top.i].id)
    ensures PathOk(m, h, nodes, head, Pushed(path, j, s))
  {
    hide Live, Tried, Enabled, StepOk, Configs, Represents, Complete;
    var d := |path| - 1;
    var top := path[d];
    var x := top.list[top.i].id;
    var path' := Pushed(path, j, s);
    var next := path'[d + 1];
    assert AtDepth(m, h, next, d + 1) by {
      assert AtDepth(m, h, top, d);
      DeeperConfig(m, h, nodes, head, top, d);
    }
    var _ := LiveReturn(h, nodes, head, top.lin, top.list, top.i);
    LiveLift(h, nodes, head, top.lin, top.list, top.i, j);
    CandidateEnabled(h, nodes, head, top.lin, top.list, top.i);
    assert Checked(m, h, nodes, head, path'[d]) && Checked(m, h, nodes, head, next);
    assert Chosen(m, h, path'[d], next);
    forall k | 0 <= k < d
      ensures Chosen(m, h, path'[k], path'[k + 1])
    {
      assert Chosen(m, h, path[k], path[k + 1]);
    }
    forall k | 0 <= k <= d
      ensures AtDepth(m, h, path'[k], k)
    {
      assert AtDepth(m, h, path[k], k);
    }
    forall k, k' | 0 <= k < k' < |path'|
      ensures Took(path'[k], path'[k'].lin)
    {
      if k < d {
        assert Took(path[k], path[if k' < d then k' else d].lin);
      }
    }
  }

  // A cache hit: the configuration the top would move to is known to be dead.
  lemma Hit<S(!new), V(!new)>(m: Model<S, V>, h: seq<Event<V>>, nodes: seq<Node<V>>, head: Node<V>,
                              path: seq<Level<S, V>>, seen: set<(set<nat>, S)>, x: nat, c: (set<nat>, S))
    requires Lawful(m) && PathOk(m, h, nodes, head, path) && SeenOk(m, h, path, seen) && c in seen
    requires var top := path[|path| - 1];
             x !in top.lin && StepOk(m, h, top.state, x)
             && c.0 == top.lin + {x} && m.equal(After(m, h, top.state, x), c.1)
    ensures Tried(m, h, path[|path| - 1].lin, path[|path| - 1].state, x)
  {
    var top := path[|path| - 1];
    assert |c.0| == |top.lin| + 1;
    forall k | 1 <= k < |path|
      ensures |path[k].lin| < |c.0|
    {
      assert AtDepth(m, h, path[k], k) && AtDepth(m, h, top, |path| - 1);
    }
    EqualFinishes(m, h, c.0, After(m, h, top.state, x), c.1);
  }

  lemma {:induction false} LinInvoked<S, V>(m: Model<S, V>, h: seq<Event<V>>, nodes: seq<Node<V>>, head: Node<V>,
                                            path: seq<Level<S, V>>, k: nat)
    requires PathOk(m, h, nodes, head, path) && k < |path|
    ensures path[k].lin <= Invoked(h) && k <= |Invoked(h)|
  {
    if k > 0 {
      LinInvoked(m, h, nodes, head, path, k - 1);
      assert Chosen(m, h, path[k - 1], path[k]);
    }
    assert AtDepth(m, h, path[k], k);
    SubsetSmaller(path[k].lin, Invoked(h));
  }

  // The new configuration is one of the finitely many, and joins the path as it joins the cache.
  lemma SeenPush<S, V>(m: Model<S, V>, h: seq<Event<V>>, nodes: seq<Node<V>>, head: Node<V>,
                       path: seq<Level<S, V>>, j: nat, s: S, seen: set<(set<nat>, S)>)
    requires PathOk(m, h, nodes, head, path) && SeenOk(m, h, path, seen)
    requires path[|path| - 1].i < j < |path[|path| - 1].list|
    requires PathOk(m, h, nodes, head, Pushed(path, j, s))
    ensures var path' := Pushed(path, j, s);
            SeenOk(m, h, path', seen + {(path'[|path|].lin, path'[|path|].state)})
  {
    hide Checked, Chosen, Configs, ConfigsUpTo, Finishable, StepOk;
    var path' := Pushed(path, j, s);
    var next := path'[|path|];
    assert AtDepth(m, h, next, |path|);
    LinInvoked(m, h, nodes, head, path', |path|);
    ConfigsInUniverse(m, h, |path|, |Invoked(h)|);
    forall c | c in seen && OnPath(path, c)
      ensures OnPath(path', c)
    {
      var k :| 1 <= k < |path| && c == (path[k].lin, path[k].state);
      assert c == (path'[k].lin, path'[k].state);
    }
    assert OnPath(path', (next.lin, next.state));
  }

  // The path after the top has turned out dead: one level less, its entry tried.
  ghost function Popped<S, V>(path: seq<Level<S, V>>): seq<Level<S, V>>
    requires |path| >= 2
  {
    var d := |path| - 2;
    path[..d] + [path[d].(i := path[d].i + 1)]
  }

  lemma PathBelow<S, V>(m: Model<S, V>, h: seq<Event<V>>, nodes: seq<Node<V>>, head: Node<V>, path: seq<Level<S, V>>)
    requires |path| >= 2 && PathOk(m, h, nodes, head, path)
    ensures PathOk(m, h, nodes, head, path[..|path| - 1])
  {
    hide Live, Checked, AtDepth;
    var lower := path[..|path| - 1];
    forall k | 0 <= k < |path| - 1
      ensures Chosen(m, h, path[k], path[k + 1]) && lower[k] == path[k]
    {
    }
    forall k, k' | 0 <= k < k' < |lower|
      ensures Took(lower[k], lower[k'].lin)
    {
      assert Took(path[k], path[k'].lin);
    }
  }

  // A configuration in the cache that can be finished is on the path below the dead top.
  lemma PopSeen<S, V>(m: Model<S, V>, h: seq<Event<V>>, path: seq<Level<S, V>>, seen: set<(set<nat>, S)>)
    requires |path| >= 2 && SeenOk(m, h, path, seen)
    requires !Finishable(m, h, path[|path| - 1].lin, path[|path| - 1].state)
    ensures SeenOk(m, h, Popped(path), seen)
  {
    hide Configs, Finishable, ConfigsUpTo;
    forall c | c in seen && Finishable(m, h, c.0, c.1)
      ensures OnPath(Popped(path), c)
    {
      assert OnPath(path, c);
      var k :| 1 <= k < |path| && c == (path[k].lin, path[k].state);
      assert c == (Popped(path)[k].lin, Popped(path)[k].state);
    }
  }

  lemma Pop<S, V>(m: Model<S, V>, h: seq<Event<V>>, nodes: seq<Node<V>>, head: Node<V>,
                  path: seq<Level<S, V>>, seen: set<(set<nat>, S)>)
    requires Complete(h) && Represents(nodes, h, 0)
    requires |path| >= 2 && PathOk(m, h, nodes, head, path) && SeenOk(m, h, path, seen)
    requires !Finishable(m, h, path[|path| - 1].lin, path[|path| - 1].state)
    ensures PathOk(m, h, nodes, head, Popped(path))
    ensures SeenOk(m, h, Popped(path), seen)
  {
    hide Live, Enabled, Configs, Represents, Complete, ConfigsUpTo, Finishable, Checked, AtDepth;
    var d := |path| - 2;
    var lower := path[..d + 1];
    PathBelow(m, h, nodes, head, path);
    assert Chosen(m, h, path[d], path[d + 1]);
    Advance(m, h, nodes, head, lower);
    assert lower[d := path[d].(i := path[d].i + 1)] == Popped(path);
    PopSeen(m, h, path, seen);
  }

  // The operations chosen from level k on, in order.
  ghost function Order<S, V>(path: seq<Level<S, V>>, k: nat): seq<nat>
    requires k < |path| && forall n :: 0 <= n < |path| - 1 ==> path[n].i < |path[n].list|
    decreases |path| - k
  {
    if k == |path| - 1 then [] else [path[k].list[path[k].i].id] + Order(path, k + 1)
  }

  lemma NothingLeft<S, V>(m: Model<S, V>, h: seq<Event<V>>, nodes: seq<Node<V>>, head: Node<V>, lv: Level<S, V>)
    requires Represents(nodes, h, 0) && Checked(m, h, nodes, head, lv) && |lv.list| == 1
    ensures Invoked(h) - lv.lin == {}
  {
    forall x | x in Invoked(h)
      ensures x in lv.lin
    {
      assert NodeFor(nodes, h, 0, CallPos(h, x));
    }
  }

  lemma Prepend<S, V>(m: Model<S, V>, h: seq<Event<V>>, lin: set<nat>, s: S, x: nat, rest: seq<nat>)
    requires Enabled(h, lin, x) && StepOk(m, h, s, x)
    requires IsLinearizationOf(m, h, Outputs(h), Invoked(h) - (lin + {x}), After(m, h, s, x), rest)
    ensures IsLinearizationOf(m, h, Outputs(h), Invoked(h) - lin, s, [x] + rest)
  {
    var order := [x] + rest;
    assert order[1..] == rest;
    forall i, j | 0 <= i < j < |order|
      ensures order[i] != order[j] && !Precedes(h, order[j], order[i])
    {
      assert order[j] in rest;
    }
    forall y ensures y in order <==> y in Invoked(h) - lin {
      assert y in order <==> y == x || y in rest;
    }
  }

  // With nothing left in the live list, the choices on the path are a linearization.
  lemma {:induction false} OrderIsLinearization<S, V>(m: Model<S, V>, h: seq<Event<V>>, nodes: seq<Node<V>>, head: Node<V>,
                                                      path: seq<Level<S, V>>, k: nat)
    requires Complete(h) && Represents(nodes, h, 0) && PathOk(m, h, nodes, head, path)
    requires |path[|path| - 1].list| == 1 && k < |path|
    ensures forall n :: 0 <= n < |path| - 1 ==> path[n].i < |path[n].list|
    ensures IsLinearizationOf(m, h, Outputs(h), Invoked(h) - path[k].lin, path[k].state, Order(path, k))
    decreases |path| - k
  {
    forall n | 0 <= n < |path| - 1 ensures path[n].i < |path[n].list| {
      assert Chosen(m, h, path[n], path[n + 1]);
    }
    if k == |path| - 1 {
      NothingLeft(m, h, nodes, head, path[k]);
    } else {
      OrderIsLinearization(m, h, nodes, head, path, k + 1);
      assert Chosen(m, h, path[k], path[k + 1]);
      Prepend(m, h, path[k].lin, path[k].state, path[k].list[path[k].i].id, Order(path, k + 1));
    }
  }
}
