// The backtracking search of lcm/porcupine with its cache: it decides linearizability.
module Search {
  import opened Bitset
  import opened History
  import opened LinkedEntries
  import opened SearchState
  import opened SearchTheory

  // A cached bitset is a clone that is never written again, so the cache holds its words by value.
  datatype CacheEntry<S> = CacheEntry(linearized: seq<bv64>, state: S)

  datatype CallsEntry<S, V> = CallsEntry(entry: Node<V>, state: S)

  // ----- the cache: buckets of configurations by hash

  // The configuration a cache entry stands for.
  ghost function Config<S>(e: CacheEntry<S>): (set<nat>, S)
  {
    (View(e.linearized), e.state)
  }

  ghost predicate InCache<S>(cache: map<nat, seq<CacheEntry<S>>>, e: CacheEntry<S>)
  {
    HashOf(e.linearized) in cache && e in cache[HashOf(e.linearized)]
  }

  // The buckets hold entries for exactly the configurations in `seen`, each under its hash.
  ghost predicate CacheOk<S(!new)>(cache: map<nat, seq<CacheEntry<S>>>, len: nat, seen: set<(set<nat>, S)>)
  {
    && (forall k, e :: k in cache && e in cache[k] ==>
          HashOf(e.linearized) == k && |e.linearized| == len && Config(e) in seen)
    && (forall c :: c in seen ==> exists e :: InCache(cache, e) && Config(e) == c)
  }

  // Membership up to the model's equality, exact whatever hash collisions there are.
  method CacheContains<S(!new), V>(m: Model<S, V>, cache: map<nat, seq<CacheEntry<S>>>, entry: CacheEntry<S>,
                             ghost seen: set<(set<nat>, S)>)
    returns (found: bool)
    requires CacheOk(cache, |entry.linearized|, seen)
    ensures found <==> exists c :: c in seen && c.0 == View(entry.linearized) && m.equal(entry.state, c.1)
  {
    hide View, HashOf;
    var hash := Hash(entry.linearized);
    var bucket := if hash in cache then cache[hash] else [];
    for i := 0 to |bucket|
      invariant forall k :: 0 <= k < i ==>
        !(View(bucket[k].linearized) == View(entry.linearized) && m.equal(entry.state, bucket[k].state))
    {
      var elem := bucket[i];
      assert elem in cache[hash];
      var same := Equals(entry.linearized, elem.linearized);
      if same && m.equal(entry.state, elem.state) {
        assert Config(elem) in seen;
        return true;
      }
    }
    forall c | c in seen && c.0 == View(entry.linearized)
      ensures !m.equal(entry.state, c.1)
    {
      var e :| InCache(cache, e) && Config(e) == c;
      ViewInjective(e.linearized, entry.linearized);
      assert e in bucket;
    }
    return false;
  }

  // The configuration after linearizing operation id, and whether the cache has it.
  method Explored<S(!new), V>(m: Model<S, V>, linearized: array<bv64>, id: nat, newState: S,
                              cache: map<nat, seq<CacheEntry<S>>>, ghost seen: set<(set<nat>, S)>)
    returns (newCacheEntry: CacheEntry<S>, found: bool)
    requires id < 64 * linearized.Length && CacheOk(cache, linearized.Length, seen)
    ensures newCacheEntry.state == newState && |newCacheEntry.linearized| == linearized.Length
    ensures View(newCacheEntry.linearized) == View(linearized[..]) + {id}
    ensures found <==> exists c :: c in seen && c.0 == View(newCacheEntry.linearized) && m.equal(newState, c.1)
  {
    hide View, CacheOk;
    var newLinearized := Clone(linearized);
    Set(newLinearized, id);
    newCacheEntry := CacheEntry(newLinearized[..], newState);
    found := CacheContains(m, cache, newCacheEntry, seen);
  }

  ghost function Added<S>(cache: map<nat, seq<CacheEntry<S>>>, hash: nat, e: CacheEntry<S>): map<nat, seq<CacheEntry<S>>>
  {
    cache[hash := (if hash in cache then cache[hash] else []) + [e]]
  }

  lemma CacheAdded<S(!new)>(cache: map<nat, seq<CacheEntry<S>>>, seen: set<(set<nat>, S)>, e: CacheEntry<S>)
    requires CacheOk(cache, |e.linearized|, seen)
    ensures CacheOk(Added(cache, HashOf(e.linearized), e), |e.linearized|, seen + {Config(e)})
  {
    hide View, HashOf;
    var hash := HashOf(e.linearized);
    var cache' := Added(cache, hash, e);
    forall k, f
      ensures k in cache' && f in cache'[k] <==> (k in cache && f in cache[k]) || (k == hash && f == e)
    {
    }
    forall c | c in seen + {Config(e)}
      ensures exists f :: InCache(cache', f) && Config(f) == c
    {
      if c in seen {
        var f :| InCache(cache, f) && Config(f) == c;
        assert InCache(cache', f);
      } else {
        assert InCache(cache', e);
      }
    }
  }

  // ----- the search

  ghost predicate OneOf<V>(n: Node<V>, nodes: seq<Node<V>>, head: Node<V>)
  {
    n == head || n in nodes
  }

  // The two nodes lifted at level lv still hold the pointers that restore its list.
  ghost predicate Restorable<S, V>(nodes: seq<Node<V>>, head: Node<V>, lv: Level<S, V>)
    reads nodes, head
  {
    && 1 <= lv.i < lv.j < |lv.list|
    && OneOf(lv.list[lv.i], nodes, head) && OneOf(lv.list[lv.j], nodes, head)
    && Remembers(lv.list, lv.i, lv.j)
  }

  ghost predicate ListOk<V>(nodes: seq<Node<V>>, head: Node<V>, list: seq<Node<V>>)
    reads nodes, head
  {
    (forall k :: 0 <= k < |list| ==> OneOf(list[k], nodes, head)) && Linked(list)
  }

  // The pointers at every level: the top list is linked, the levels below can be restored.
  ghost predicate ListsOk<S, V>(nodes: seq<Node<V>>, head: Node<V>, path: seq<Level<S, V>>)
    reads nodes, head
  {
    && |path| >= 1
    && ListOk(nodes, head, path[|path| - 1].list)
    && forall k :: 0 <= k < |path| - 1 ==> Restorable(nodes, head, path[k])
  }

  // The calls stack holds the chosen entries and the states they were chosen in.
  ghost predicate CallsOk<S, V>(calls: seq<CallsEntry<S, V>>, path: seq<Level<S, V>>)
  {
    && |calls| + 1 == |path|
    && forall k :: 0 <= k < |calls| ==>
         path[k].i < |path[k].list| && calls[k].entry == path[k].list[path[k].i] && calls[k].state == path[k].state
  }

  lemma NotLive<V>(nodes: seq<Node<V>>, head: Node<V>, lin: set<nat>, list: seq<Node<V>>, i: nat,
                   lin': set<nat>, list': seq<Node<V>>)
    requires Live(nodes, head, lin, list) && Live(nodes, head, lin', list')
    requires 1 <= i < |list| && list[i].id in lin'
    ensures list[i] !in list'
  {}

  // Nodes taken at lower levels are not in the list of a higher one, so moving there leaves them alone.
  lemma LiftedApart<S, V>(m: Model<S, V>, h: seq<Event<V>>, nodes: seq<Node<V>>, head: Node<V>, path: seq<Level<S, V>>,
                          k: nat, d: nat)
    requires PathOk(m, h, nodes, head, path) && k < d < |path|
    ensures 1 <= path[k].i < path[k].j < |path[k].list|
    ensures path[k].list[path[k].i] !in path[d].list && path[k].list[path[k].j] !in path[d].list
  {
    hide Tried, StepOk, Enabled, AtDepth, Live;
    assert Chosen(m, h, path[k], path[k + 1]) && Took(path[k], path[d].lin);
    assert Checked(m, h, nodes, head, path[k]) && Checked(m, h, nodes, head, path[d]);
    NotLive(nodes, head, path[k].lin, path[k].list, path[k].i, path[d].lin, path[d].list);
    NotLive(nodes, head, path[k].lin, path[k].list, path[k].j, path[d].lin, path[d].list);
  }

  lemma NotFinishable<S, V>(m: Model<S, V>, h: seq<Event<V>>)
    requires !Finishable(m, h, {}, m.init)
    ensures !Linearizable(m, h)
  {
    assert Invoked(h) - {} == Invoked(h);
  }

  // What the loop needs to know about the level on top.
  lemma TopFacts<S, V>(m: Model<S, V>, h: seq<Event<V>>, nodes: seq<Node<V>>, head: Node<V>, path: seq<Level<S, V>>)
    requires Complete(h) && Represents(nodes, h, 0) && PathOk(m, h, nodes, head, path)
    ensures var top := path[|path| - 1];
            && Live(nodes, head, top.lin, top.list) && Checked(m, h, nodes, head, top)
            && 1 <= top.i && |top.list| >= 1 && top.list[0] == head
            && (|top.list| > 1 ==> top.i < |top.list|)
            && (|path| == 1 ==> top.lin == {} && top.state == m.init)
            && Distinct(top.list)
            && (forall k :: 0 <= k < |top.list| ==> OneOf(top.list[k], nodes, head))
            && (top.i < |top.list| ==> top.list[top.i].id !in top.lin && exists p :: 0 <= p < |h| && h[p].id == top.list[top.i].id)
  {
    hide Tried, AtDepth, Chosen;
    var top := path[|path| - 1];
    assert Checked(m, h, nodes, head, top);
    if top.i < |top.list| {
      assert NodeFor(nodes, h, 0, top.list[top.i].pos);
    }
  }

  // What backtracking needs to know about the level it returns to.
  lemma PopFacts<S, V>(m: Model<S, V>, h: seq<Event<V>>, nodes: seq<Node<V>>, head: Node<V>, path: seq<Level<S, V>>)
    requires Complete(h) && Represents(nodes, h, 0) && PathOk(m, h, nodes, head, path) && |path| >= 2
    ensures var lv, top := path[|path| - 2], path[|path| - 1];
            && 1 <= lv.i < lv.j < |lv.list| && lv.list[lv.i].matching == lv.list[lv.j]
            && top.list == WithoutPair(lv.list, lv.i, lv.j)
            && Distinct(lv.list)
            && (forall k :: 0 <= k < |lv.list| ==> OneOf(lv.list[k], nodes, head))
            && (exists p :: 0 <= p < |h| && h[p].id == lv.list[lv.i].id)
            && top.lin - {lv.list[lv.i].id} == lv.lin
  {
    hide Tried, AtDepth;
    var lv := path[|path| - 2];
    assert Chosen(m, h, lv, path[|path| - 1]);
    assert Checked(m, h, nodes, head, lv);
    assert NodeFor(nodes, h, 0, lv.list[lv.i].pos);
  }

  // The entry under consideration is the one at the top level's index, unless nothing is left.
  ghost predicate AtEntry<S, V>(path: seq<Level<S, V>>, entry: Node?<V>)
    requires |path| >= 1
  {
    var top := path[|path| - 1];
    |top.list| > 1 ==> top.i < |top.list| && entry == top.list[top.i]
  }

  // The step the search computes for the entry on top.
  ghost function StepOf<S, V>(m: Model<S, V>, top: Level<S, V>, j: nat): (bool, S)
    requires top.i < |top.list| && j < |top.list|
  {
    m.step(top.state, top.list[top.i].value, top.list[j].value)
  }

  // The entry on top is a call, its return is at j, and the step the search computes is its step.
  ghost predicate Candidate<S, V>(m: Model<S, V>, h: seq<Event<V>>, top: Level<S, V>, j: nat)
  {
    && 1 <= top.i < j < |top.list| && top.list[top.i].matching == top.list[j] && top.list[top.i].id == top.list[j].id
    && top.list[j].pos < |h| && h[top.list[j].pos].Return?
    && var x, r := top.list[top.i].id, StepOf(m, top, j);
       (StepOk(m, h, top.state, x) <==> r.0) && (r.0 ==> After(m, h, top.state, x) == r.1)
  }

  // lift(entry) for the entry on top: the list loses the operation, and its two nodes join those
  // that hold the pointers to come back by.
  method LiftTop<S, V>(entry: Node<V>, ghost m: Model<S, V>, ghost h: seq<Event<V>>, ghost nodes: seq<Node<V>>,
                       ghost head: Node<V>, ghost path: seq<Level<S, V>>, ghost j: nat, ghost s: S)
    requires |path| >= 1
    requires Complete(h) && Represents(nodes, h, 0) && PathOk(m, h, nodes, head, path)
    requires var top := path[|path| - 1];
             && top.i < |top.list| && entry == top.list[top.i]
             && Candidate(m, h, top, j) && StepOf(m, top, j) == (true, s)
    requires ListsOk(nodes, head, path)
    modifies nodes, head
    ensures path[|path| - 1].i < j < |path[|path| - 1].list|
    ensures var path' := Pushed(path, j, s);
            && PathOk(m, h, nodes, head, path')
            && ListsOk(nodes, head, path') && AtEntry(path', head.next)
  {
    hide PathOk, Represents, Complete, StepOk, Linked, Remembers, WithoutPair, Distinct;
    ghost var d := |path| - 1;
    TopFacts(m, h, nodes, head, path);
    forall k | 0 <= k < d
      ensures path[k].list[path[k].i] !in path[d].list && path[k].list[path[k].j] !in path[d].list
    {
      LiftedApart(m, h, nodes, head, path, k, d);
    }
    Push(m, h, nodes, head, path, j, s);
    ghost var path', list := Pushed(path, j, s), path[d].list;
    assert |path'| == d + 2 && path'[d] == path[d].(j := j) && path'[d + 1].list == WithoutPair(list, path[d].i, j);
    WithoutPairAt(list, path[d].i, j);
    Lift(entry, list, path[d].i, j);
    forall k | 0 <= k < d
      ensures Restorable(nodes, head, path'[k])
    {
      assert path'[k] == path[k];
    }
    assert ListOk(nodes, head, path'[d + 1].list);
  }

  // unlift(entry) for the entry chosen just below the top: the list below is back.
  method UnliftTop<S, V>(entry: Node<V>, ghost m: Model<S, V>, ghost h: seq<Event<V>>, ghost nodes: seq<Node<V>>,
                         ghost head: Node<V>, ghost path: seq<Level<S, V>>)
    requires Complete(h) && Represents(nodes, h, 0) && PathOk(m, h, nodes, head, path) && |path| >= 2
    requires 0 <= |path| - 2 && path[|path| - 2].i < |path[|path| - 2].list| && entry == path[|path| - 2].list[path[|path| - 2].i]
    requires ListsOk(nodes, head, path)
    modifies nodes, head
    ensures var path' := Popped(path);
            ListsOk(nodes, head, path') && AtEntry(path', entry.next)
  {
    hide PathOk, Represents, Complete, Remembers, WithoutPair, Distinct;
    ghost var d := |path| - 2;
    PopFacts(m, h, nodes, head, path);
    forall k | 0 <= k < d
      ensures path[k].list[path[k].i] !in path[d].list && path[k].list[path[k].j] !in path[d].list
    {
      LiftedApart(m, h, nodes, head, path, k, d);
    }
    assert Restorable(nodes, head, path[d]);
    Unlift(entry, path[d].list, path[d].i, path[d].j);
    ghost var path' := Popped(path);
    forall k | 0 <= k < d
      ensures Restorable(nodes, head, path'[k])
    {
      assert path'[k] == path[k];
    }
  }

  // The loop invariant, apart from the pointers: the path is sound, the cache knows only dead ends
  // and what the path stands on, and the local variables agree with the path.
  ghost predicate Inv<S(!new), V>(m: Model<S, V>, h: seq<Event<V>>, nodes: seq<Node<V>>, head: Node<V>,
                                  path: seq<Level<S, V>>, seen: set<(set<nat>, S)>, calls: seq<CallsEntry<S, V>>,
                                  state: S, cache: map<nat, seq<CacheEntry<S>>>, words: seq<bv64>)
  {
    && Complete(h) && (forall i :: 0 <= i < |h| ==> h[i].id < |h| / 2) && Represents(nodes, h, 0)
    && PathOk(m, h, nodes, head, path) && SeenOk(m, h, path, seen)
    && CallsOk(calls, path)
    && state == path[|path| - 1].state
    && CacheOk(cache, |words|, seen)
    && |h| / 2 <= 64 * |words| && View(words) == path[|path| - 1].lin
  }

  lemma InvStart<S(!new), V>(m: Model<S, V>, h: seq<Event<V>>, nodes: seq<Node<V>>, head: Node<V>, words: seq<bv64>)
    requires Complete(h) && (forall i :: 0 <= i < |h| ==> h[i].id < |h| / 2) && Represents(nodes, h, 0)
    requires head !in nodes && |nodes| / 2 <= 64 * |words| && View(words) == {}
    ensures Inv(m, h, nodes, head, [Level([head] + nodes, 1, 0, {}, m.init)], {}, [], m.init, map[], words)
  {
    hide PathOk, View, HashOf, Universe;
    Start(m, h, nodes, head);
  }

  // The facts about the level on top that the loop body works with.
  lemma InvTop<S(!new), V>(m: Model<S, V>, h: seq<Event<V>>, nodes: seq<Node<V>>, head: Node<V>,
                           path: seq<Level<S, V>>, seen: set<(set<nat>, S)>, calls: seq<CallsEntry<S, V>>,
                           state: S, cache: map<nat, seq<CacheEntry<S>>>, words: seq<bv64>) returns (j: nat)
    requires Inv(m, h, nodes, head, path, seen, calls, state, cache, words)
    ensures Complete(h) && Represents(nodes, h, 0) && PathOk(m, h, nodes, head, path)
    ensures SeenOk(m, h, path, seen) && CacheOk(cache, |words|, seen)
    ensures |path| == |calls| + 1 && state == path[|calls|].state && View(words) == path[|calls|].lin
    ensures |calls| == 0 ==> path[0].lin == {} && path[0].state == m.init
    ensures var top := path[|calls|];
            && 1 <= top.i && |top.list| >= 1 && top.list[0] == head
            && (|top.list| > 1 ==> top.i < |top.list|)
    ensures var top := path[|calls|];
            top.i < |top.list| ==>
              var entry := top.list[top.i];
              && entry.id < 64 * |words| && entry.id !in View(words)
              && if entry.matching == null then !Finishable(m, h, top.lin, top.state)
                 else Candidate(m, h, top, j) && top.i < j < |top.list| && entry.matching == top.list[j]
  {
    hide SeenOk, CacheOk, StepOk, Finishable, View, HashOf;
    TopFacts(m, h, nodes, head, path);
    var top := path[|calls|];
    j := 0;
    if top.i < |top.list| {
      j := LiveReturn(h, nodes, head, top.lin, top.list, top.i);
      if top.list[top.i].matching == null {
        ReturnIsDeadEnd(m, h, nodes, head, top);
      } else {
        EntryStep(m, h, nodes, head, top, j);
      }
    }
  }

  lemma ListsStart<S, V>(nodes: seq<Node<V>>, head: Node<V>, s: S)
    requires Linked([head] + nodes)
    ensures ListsOk(nodes, head, [Level([head] + nodes, 1, 0, {}, s)])
    ensures AtEntry([Level([head] + nodes, 1, 0, {}, s)], if nodes == [] then null else nodes[0])
  {}

  // The head's next pointer is null exactly when nothing is left.
  lemma NothingAfterHead<S, V>(nodes: seq<Node<V>>, head: Node<V>, path: seq<Level<S, V>>)
    requires ListsOk(nodes, head, path)
    requires path[|path| - 1].list != [] && path[|path| - 1].list[0] == head
    ensures head.next == null <==> |path[|path| - 1].list| == 1
  {
    var list := path[|path| - 1].list;
    if |list| > 1 {
      assert list[0].next == list[1];
    }
  }

  ghost function Advanced<S, V>(path: seq<Level<S, V>>): seq<Level<S, V>>
    requires |path| >= 1
  {
    path[|path| - 1 := path[|path| - 1].(i := path[|path| - 1].i + 1)]
  }

  // The next node of the list is the next entry.
  lemma NextEntry<S, V>(nodes: seq<Node<V>>, head: Node<V>, path: seq<Level<S, V>>)
    requires ListsOk(nodes, head, path)
    requires path[|path| - 1].i + 1 < |path[|path| - 1].list|
    ensures AtEntry(Advanced(path), path[|path| - 1].list[path[|path| - 1].i].next)
    ensures |Advanced(path)| == |path| && Advanced(path)[|path| - 1].list == path[|path| - 1].list
    ensures Advanced(path)[|path| - 1].i == path[|path| - 1].i + 1
    ensures ListsOk(nodes, head, Advanced(path))
  {}

  lemma InvAdvance<S(!new), V(!new)>(m: Model<S, V>, h: seq<Event<V>>, nodes: seq<Node<V>>, head: Node<V>,
                               path: seq<Level<S, V>>, seen: set<(set<nat>, S)>, calls: seq<CallsEntry<S, V>>,
                               state: S, cache: map<nat, seq<CacheEntry<S>>>, words: seq<bv64>, j: nat)
    requires Inv(m, h, nodes, head, path, seen, calls, state, cache, words)
    requires Lawful(m) && Candidate(m, h, path[|path| - 1], j)
    requires var top := path[|path| - 1];
             StepOf(m, top, j).0 ==>
               exists c :: c in seen && c.0 == View(words) + {top.list[top.i].id} && m.equal(StepOf(m, top, j).1, c.1)
    ensures Inv(m, h, nodes, head, Advanced(path), seen, calls, state, cache, words)
    ensures path[|path| - 1].i + 1 < |path[|path| - 1].list|
  {
    hide PathOk, CacheOk, Finishable, View, HashOf, Complete, Represents, Universe, Lawful;
    var top := path[|path| - 1];
    if StepOf(m, top, j).0 {
      var c :| c in seen && c.0 == View(words) + {top.list[top.i].id} && m.equal(StepOf(m, top, j).1, c.1);
      TopFacts(m, h, nodes, head, path);
      Hit(m, h, nodes, head, path, seen, top.list[top.i].id, c);
    }
    Advance(m, h, nodes, head, path);
    var path' := Advanced(path);
    forall c | c in seen && OnPath(path, c)
      ensures OnPath(path', c)
    {
      var k :| 1 <= k < |path| && c == (path[k].lin, path[k].state);
      assert c == (path'[k].lin, path'[k].state);
    }
  }

  // The entry on top is linearized: its new configuration is not one the cache knows.
  lemma InvPush<S(!new), V(!new)>(m: Model<S, V>, h: seq<Event<V>>, nodes: seq<Node<V>>, head: Node<V>,
                                  path: seq<Level<S, V>>, seen: set<(set<nat>, S)>, calls: seq<CallsEntry<S, V>>,
                                  state: S, cache: map<nat, seq<CacheEntry<S>>>, words: seq<bv64>,
                                  j: nat, e: CacheEntry<S>, words': seq<bv64>)
    requires Inv(m, h, nodes, head, path, seen, calls, state, cache, words) && Lawful(m)
    requires Candidate(m, h, path[|path| - 1], j)
    requires var top := path[|path| - 1];
             && StepOf(m, top, j) == (true, e.state)
             && |e.linearized| == |words| && View(e.linearized) == View(words) + {top.list[top.i].id}
             && |words'| == |words| && View(words') == View(e.linearized)
    requires !exists c :: c in seen && c.0 == View(e.linearized) && m.equal(e.state, c.1)
    ensures var top := path[|path| - 1];
            top.i < j < |top.list| &&
            Inv(m, h, nodes, head, Pushed(path, j, e.state), seen + {Config(e)},
                calls + [CallsEntry(top.list[top.i], state)], e.state, Added(cache, HashOf(e.linearized), e), words')
    ensures Universe(m, h) - (seen + {Config(e)}) < Universe(m, h) - seen
  {
    hide PathOk, CacheOk, StepOk, View, HashOf, Complete, Represents, Universe, Finishable;
    Push(m, h, nodes, head, path, j, e.state);
    SeenPush(m, h, nodes, head, path, j, e.state, seen);
    CacheAdded(cache, seen, e);
    var path' := Pushed(path, j, e.state);
    assert Config(e) == (path'[|path|].lin, path'[|path|].state);
    assert Config(e) in Universe(m, h) && Config(e) !in seen by {
      assert m.equal(e.state, e.state);
    }
  }

  // The level on top is dead: back to the one below, past the entry chosen there.
  lemma InvPop<S(!new), V>(m: Model<S, V>, h: seq<Event<V>>, nodes: seq<Node<V>>, head: Node<V>,
                           path: seq<Level<S, V>>, seen: set<(set<nat>, S)>, calls: seq<CallsEntry<S, V>>,
                           state: S, cache: map<nat, seq<CacheEntry<S>>>, words: seq<bv64>)
    requires Inv(m, h, nodes, head, path, seen, calls, state, cache, words)
    requires |path| >= 2 && !Finishable(m, h, path[|path| - 1].lin, path[|path| - 1].state)
    ensures var lv, callsTop := path[|path| - 2], calls[|calls| - 1];
            && 1 <= lv.i < lv.j < |lv.list| && callsTop.entry == lv.list[lv.i] && callsTop.entry.id < 64 * |words|
            && forall words' :: |words'| == |words| && View(words') == View(words) - {callsTop.entry.id} ==>
                 Inv(m, h, nodes, head, Popped(path), seen, calls[..|calls| - 1], callsTop.state, cache, words')
  {
    hide PathOk, SeenOk, CacheOk, View, HashOf, Complete, Represents, Finishable;
    PopFacts(m, h, nodes, head, path);
    Pop(m, h, nodes, head, path, seen);
  }

  lemma {:induction false} OrderIds<S, V>(path: seq<Level<S, V>>, k: nat)
    requires k < |path| && forall n :: 0 <= n < |path| - 1 ==> path[n].i < |path[n].list|
    ensures |Order(path, k)| == |path| - 1 - k
    ensures forall n :: 0 <= n < |path| - 1 - k ==> Order(path, k)[n] == path[k + n].list[path[k + n].i].id
    decreases |path| - k
  {
    if k < |path| - 1 {
      OrderIds(path, k + 1);
      assert forall n :: 0 < n < |path| - 1 - k ==> Order(path, k)[n] == Order(path, k + 1)[n - 1];
    }
  }

  // The operations on the stack, from the bottom.
  ghost function EntryIds<S, V>(calls: seq<CallsEntry<S, V>>): seq<nat>
  {
    seq(|calls|, k requires 0 <= k < |calls| => calls[k].entry.id)
  }

  lemma OrderIsStack<S, V>(path: seq<Level<S, V>>, calls: seq<CallsEntry<S, V>>)
    requires CallsOk(calls, path)
    ensures Order(path, 0) == EntryIds(calls)
  {
    OrderIds(path, 0);
  }

  lemma LinearizationExists<S, V>(m: Model<S, V>, h: seq<Event<V>>, order: seq<nat>)
    requires IsLinearizationOf(m, h, Outputs(h), Invoked(h), m.init, order)
    ensures Linearizable(m, h)
  {}

  // Nothing is left in the list: the calls stack is a linearization.
  lemma InvDone<S(!new), V>(m: Model<S, V>, h: seq<Event<V>>, nodes: seq<Node<V>>, head: Node<V>,
                            path: seq<Level<S, V>>, seen: set<(set<nat>, S)>, calls: seq<CallsEntry<S, V>>,
                            state: S, cache: map<nat, seq<CacheEntry<S>>>, words: seq<bv64>)
    requires Inv(m, h, nodes, head, path, seen, calls, state, cache, words)
    requires |path[|path| - 1].list| == 1
    ensures IsLinearizationOf(m, h, Outputs(h), Invoked(h), m.init, EntryIds(calls)) && Linearizable(m, h)
  {
    hide SeenOk, CacheOk, View, HashOf, Finishable, Order, IsLinearizationOf, Linearizable;
    OrderIsLinearization(m, h, nodes, head, path, 0);
    assert Invoked(h) - {} == Invoked(h);
    OrderIsStack(path, calls);
    LinearizationExists(m, h, EntryIds(calls));
  }

  // The loop body for an accepted call that the cache does not know: record it, linearize it,
  // take it out of the list and start over from the front.
  method Linearize<S(!new), V(!new)>(ghost m: Model<S, V>, ghost h: seq<Event<V>>, ghost nodes: seq<Node<V>>, headEntry: Node<V>,
                                     ghost path: seq<Level<S, V>>, ghost seen: set<(set<nat>, S)>, ghost j: nat,
                                     calls: seq<CallsEntry<S, V>>, state: S, cache: map<nat, seq<CacheEntry<S>>>,
                                     linearized: array<bv64>, entry: Node<V>, newCacheEntry: CacheEntry<S>)
    returns (calls': seq<CallsEntry<S, V>>, cache': map<nat, seq<CacheEntry<S>>>, entry': Node?<V>)
    requires Lawful(m) && Inv(m, h, nodes, headEntry, path, seen, calls, state, cache, linearized[..])
    requires ListsOk(nodes, headEntry, path)
    requires var top := path[|path| - 1];
             && Candidate(m, h, top, j) && StepOf(m, top, j) == (true, newCacheEntry.state) && entry == top.list[top.i]
    requires entry.id < 64 * linearized.Length
    requires |newCacheEntry.linearized| == linearized.Length
             && View(newCacheEntry.linearized) == View(linearized[..]) + {entry.id}
    requires !exists c :: c in seen && c.0 == View(newCacheEntry.linearized) && m.equal(newCacheEntry.state, c.1)
    modifies nodes, headEntry, linearized
    ensures path[|path| - 1].i < j < |path[|path| - 1].list|
    ensures var path', seen' := Pushed(path, j, newCacheEntry.state), seen + {Config(newCacheEntry)};
            && |path'| == |path| + 1
            && Inv(m, h, nodes, headEntry, path', seen', calls', newCacheEntry.state, cache', linearized[..])
            && ListsOk(nodes, headEntry, path') && AtEntry(path', entry')
            && Universe(m, h) - seen' < Universe(m, h) - seen
  {
    hide PathOk, SeenOk, Represents, Complete, Lawful, StepOk, Universe, View, HashOf, CacheOk;
    var hash := Hash(newCacheEntry.linearized);
    cache' := cache[hash := (if hash in cache then cache[hash] else []) + [newCacheEntry]];
    calls' := calls + [CallsEntry(entry, state)];
    ghost var words := linearized[..];
    Set(linearized, entry.id);
    InvPush(m, h, nodes, headEntry, path, seen, calls, state, cache, words, j, newCacheEntry, linearized[..]);
    words := linearized[..];
    LiftTop(entry, m, h, nodes, headEntry, path, j, newCacheEntry.state);
    assert linearized[..] == words;
    entry' := headEntry.next;
  }

  // The loop body at a return, with calls on the stack: undo the last one and look past it.
  method Backtrack<S(!new), V(!new)>(ghost m: Model<S, V>, ghost h: seq<Event<V>>, ghost nodes: seq<Node<V>>,
                                     ghost headEntry: Node<V>, ghost path: seq<Level<S, V>>, ghost seen: set<(set<nat>, S)>,
                                     calls: seq<CallsEntry<S, V>>, ghost state: S, ghost cache: map<nat, seq<CacheEntry<S>>>,
                                     linearized: array<bv64>)
    returns (calls': seq<CallsEntry<S, V>>, state': S, entry': Node?<V>)
    requires Inv(m, h, nodes, headEntry, path, seen, calls, state, cache, linearized[..])
    requires ListsOk(nodes, headEntry, path)
    requires |calls| > 0 && !Finishable(m, h, path[|path| - 1].lin, path[|path| - 1].state)
    modifies nodes, headEntry, linearized
    ensures |calls'| == |calls| - 1
    ensures var path' := Popped(path);
            && |path'| == |path| - 1
            && Inv(m, h, nodes, headEntry, path', seen, calls', state', cache, linearized[..])
            && ListsOk(nodes, headEntry, path') && AtEntry(path', entry')
  {
    hide PathOk, SeenOk, Represents, Complete, Finishable, View, HashOf, CacheOk;
    InvPop(m, h, nodes, headEntry, path, seen, calls, state, cache, linearized[..]);
    var callsTop := calls[|calls| - 1];
    var entry := callsTop.entry;
    state' := callsTop.state;
    Clear(linearized, entry.id);
    calls' := calls[..|calls| - 1];
    ghost var words := linearized[..];
    UnliftTop(entry, m, h, nodes, headEntry, path);
    assert linearized[..] == words;
    entry' := entry.next;
  }

  // checkSingle decides whether a complete history is linearizable. The model's equality may
  // identify states; the search stays exact because equal states are finished alike.
  method CheckSingle<S(!new), V(!new, 0)>(m: Model<S, V>, subhistory: Node?<V>,
                                          ghost h: seq<Event<V>>, ghost nodes: seq<Node<V>>)
    returns (ok: bool, ghost stack: seq<CallsEntry<S, V>>)
    requires Lawful(m) && Complete(h) && (forall i :: 0 <= i < |h| ==> h[i].id < |h| / 2)
    requires Represents(nodes, h, 0) && Linked(nodes)
    requires subhistory == if nodes == [] then null else nodes[0]
    modifies nodes
    ensures ok ==> IsLinearizationOf(m, h, Outputs(h), Invoked(h), m.init, EntryIds(stack))
    ensures ok <==> Linearizable(m, h)
  {
    hide PathOk, SeenOk, Represents, Complete, Lawful, StepOk, Finishable, Universe, View, HashOf, CacheOk, Inv;
    hide Candidate, IsLinearizationOf, Linearizable, WithoutPair, Config, ListsOk;
    var n := Length(subhistory, nodes);
    var linearized := NewBitset(n / 2);
    var cache: map<nat, seq<CacheEntry<S>>> := map[];
    var calls: seq<CallsEntry<S, V>> := [];
    var state := m.init;
    var nil: V := *;
    var headEntry := new Node(nil, null, 0, 0);
    RepresentsDistinct(nodes, h, 0);
    var _ := PushFront(headEntry, subhistory, nodes);
    var entry := subhistory;

    ghost var path := [Level([headEntry] + nodes, 1, 0, {}, m.init)];
    ghost var seen: set<(set<nat>, S)> := {};
    stack := [];
    InvStart(m, h, nodes, headEntry, linearized[..]);
    ListsStart(nodes, headEntry, m.init);
    while headEntry.next != null
      invariant Inv(m, h, nodes, headEntry, path, seen, calls, state, cache, linearized[..])
      invariant |path| >= 1 && AtEntry(path, entry)
      invariant ListsOk(nodes, headEntry, path)
      decreases Universe(m, h) - seen, |calls|, |path[|path| - 1].list| - path[|path| - 1].i
    {
      ghost var words, top := linearized[..], path[|path| - 1];
      ghost var j := InvTop(m, h, nodes, headEntry, path, seen, calls, state, cache, words);
      NothingAfterHead(nodes, headEntry, path);
      if entry.matching != null {
        var (ok, newState) := m.step(state, entry.value, entry.matching.value);
        if ok {
          var newCacheEntry, found := Explored(m, linearized, entry.id, newState, cache, seen);
          if !found {
            calls, cache, entry := Linearize(m, h, nodes, headEntry, path, seen, j, calls, state, cache,
                                             linearized, entry, newCacheEntry);
            state := newState;
            path, seen := Pushed(path, j, newState), seen + {Config(newCacheEntry)};
          } else {
            InvAdvance(m, h, nodes, headEntry, path, seen, calls, state, cache, words, j);
            NextEntry(nodes, headEntry, path);
            entry := entry.next;
            path := Advanced(path);
          }
        } else {
          InvAdvance(m, h, nodes, headEntry, path, seen, calls, state, cache, words, j);
          NextEntry(nodes, headEntry, path);
          entry := entry.next;
          path := Advanced(path);
        }
      } else {
        if |calls| == 0 {
          NotFinishable(m, h);
          return false, [];
        }
        calls, state, entry := Backtrack(m, h, nodes, headEntry, path, seen, calls, state, cache, linearized);
        path := Popped(path);
      }
    }
    ghost var _ := InvTop(m, h, nodes, headEntry, path, seen, calls, state, cache, linearized[..]);
    NothingAfterHead(nodes, headEntry, path);
    InvDone(m, h, nodes, headEntry, path, seen, calls, state, cache, linearized[..]);
    return true, calls;
  }
}
