// The doubly linked event list of lcm/porcupine: building it, and taking an operation out of it
// and putting it back in place.
module LinkedEntries {
  import opened History

  class Node<V> {
    const value: V
    const matching: Node?<V>  // the return node of a call; null for a return
    const id: nat
    ghost const pos: nat      // the position of the event in the history
    var next: Node?<V>
    var prev: Node?<V>

    constructor (value: V, matching: Node?<V>, id: nat, ghost pos: nat)
      ensures this.value == value && this.matching == matching && this.id == id && this.pos == pos
      ensures next == null && prev == null
    {
      this.value, this.matching, this.id, this.pos := value, matching, id, pos;
      next, prev := null, null;
    }
  }

  ghost predicate Distinct<V>(list: seq<Node<V>>)
  {
    forall i, j :: 0 <= i < j < |list| ==> list[i] != list[j]
  }

  // `list` is exactly what one meets by following next from its head, and prev mirrors next.
  ghost predicate Linked<V>(list: seq<Node<V>>)
    reads list
  {
    && (list != [] ==> list[0].prev == null && list[|list| - 1].next == null)
    && (forall i {:trigger list[i].next} :: 0 <= i < |list| - 1 ==> list[i].next == list[i + 1])
    && (forall i {:trigger list[i].prev} :: 0 < i < |list| ==> list[i].prev == list[i - 1])
  }

  ghost function Removed<T>(list: seq<T>, i: nat): seq<T>
    requires i < |list|
  {
    list[..i] + list[i + 1..]
  }

  // The list after taking out the nodes at i and j.
  ghost function WithoutPair<T>(list: seq<T>, i: nat, j: nat): seq<T>
    requires i < j < |list|
  {
    Removed(Removed(list, i), j - 1)
  }

  // The four pointers that lifted nodes keep, and from which unlift restores `list`.
  ghost predicate Remembers<V>(list: seq<Node<V>>, i: nat, j: nat)
    requires 1 <= i < j < |list|
    reads list[i], list[j]
  {
    && list[i].prev == list[i - 1]
    && list[i].next == list[i + 1]
    && list[j].prev == Removed(list, i)[j - 2]
    && list[j].next == if j + 1 < |list| then list[j + 1] else null
  }

  // The position of the first return of operation x at or after p; |h| when there is none.
  ghost function NextReturn<V>(h: seq<Event<V>>, x: nat, p: nat): (q: nat)
    ensures p <= |h| ==> p <= q <= |h|
    ensures q < |h| ==> IsReturnOf(h, q, x)
    decreases |h| - p
  {
    if p >= |h| then |h| else if IsReturnOf(h, p, x) then p else NextReturn(h, x, p + 1)
  }

  ghost predicate NodeFor<V>(nodes: seq<Node<V>>, h: seq<Event<V>>, from: nat, k: nat)
    requires k < |nodes| && from + |nodes| == |h|
  {
    var n, e := nodes[k], h[from + k];
    && n.pos == from + k && n.id == e.id && n.value == e.value
    && (var q := NextReturn(h, e.id, from + k);
        n.matching == if e.Return? || q == |h| then null else nodes[q - from])
  }

  // `nodes` holds one node per event of h from position `from` on, calls pointing to their returns.
  ghost predicate Represents<V>(nodes: seq<Node<V>>, h: seq<Event<V>>, from: nat)
  {
    && from + |nodes| == |h|
    && forall k: nat :: k < |nodes| ==> NodeFor(nodes, h, from, k)
  }

  method InsertBefore<V>(n: Node<V>, mark: Node?<V>) returns (r: Node<V>)
    requires mark != null ==> n != mark && n != mark.prev && mark != mark.prev
    modifies n, mark, if mark == null then {} else {mark.prev}
    ensures r == n
    ensures mark == null ==> n.next == old(n.next) && n.prev == old(n.prev)
    ensures mark != null ==> n.next == mark && mark.prev == n && mark.next == old(mark.next)
    ensures mark != null ==>
      var beforeMark := old(mark.prev);
      if beforeMark == null then n.prev == old(n.prev)
      else n.prev == beforeMark && beforeMark.next == n && beforeMark.prev == old(beforeMark.prev)
  {
    if mark != null {
      var beforeMark := mark.prev;
      mark.prev := n;
      n.next := mark;
      if beforeMark != null {
        n.prev := beforeMark;
        beforeMark.next := n;
      }
    }
    return n;
  }

  method Length<V>(n: Node?<V>, ghost list: seq<Node<V>>) returns (l: nat)
    requires Linked(list)
    requires n == if list == [] then null else list[0]
    ensures l == |list|
  {
    l := 0;
    var n := n;
    while n != null
      invariant l <= |list|
      invariant n == if l == |list| then null else list[l]
      decreases |list| - l
    {
      n := n.next;
      l := l + 1;
    }
  }

  // The backward scan's map: for each operation the node of its first return from `from` on.
  ghost predicate FirstReturns<V>(matching: map<nat, Node<V>>, nodes: seq<Node<V>>, h: seq<Event<V>>, from: nat)
  {
    && from + |nodes| == |h|
    && forall x :: (x in matching <==> NextReturn(h, x, from) < |h|)
                   && (x in matching ==> matching[x] == nodes[NextReturn(h, x, from) - from])
  }

  lemma RepresentsCons<V>(entry: Node<V>, tail: seq<Node<V>>, h: seq<Event<V>>, i: nat, matching: map<nat, Node<V>>)
    requires i < |h| && Represents(tail, h, i + 1) && FirstReturns(matching, tail, h, i + 1)
    requires entry.pos == i && entry.id == h[i].id && entry.value == h[i].value
    requires entry.matching == if h[i].Call? && h[i].id in matching then matching[h[i].id] else null
    ensures Represents([entry] + tail, h, i)
    ensures FirstReturns(if h[i].Call? then matching else matching[h[i].id := entry], [entry] + tail, h, i)
  {
    var nodes := [entry] + tail;
    forall k: nat | k < |nodes|
      ensures NodeFor(nodes, h, i, k)
    {
      if k > 0 {
        assert NodeFor(tail, h, i + 1, k - 1);
      }
    }
  }

  lemma RepresentsDistinct<V>(nodes: seq<Node<V>>, h: seq<Event<V>>, from: nat)
    requires Represents(nodes, h, from)
    ensures Distinct(nodes)
  {
    forall i, j | 0 <= i < j < |nodes|
      ensures nodes[i] != nodes[j]
    {
      assert NodeFor(nodes, h, from, i) && NodeFor(nodes, h, from, j);
    }
  }

  method PushFront<V>(n: Node<V>, root: Node?<V>, ghost list: seq<Node<V>>) returns (r: Node<V>)
    requires Distinct(list) && Linked(list) && n !in list
    requires root == if list == [] then null else list[0]
    requires n.next == null && n.prev == null
    modifies n, root
    ensures r == n && Linked([n] + list)
  {
    r := InsertBefore(n, root);
    ghost var list' := [n] + list;
    assert forall k :: 0 < k < |list'| ==> list'[k] == list[k - 1];
  }

  // The linked list of a whole event sequence.
  method MakeLinkedEntries<V>(entries: seq<Event<V>>) returns (root: Node?<V>, ghost nodes: seq<Node<V>>)
    ensures Represents(nodes, entries, 0)
    ensures Linked(nodes)
    ensures root == if nodes == [] then null else nodes[0]
    ensures fresh(nodes)
  {
    root, nodes := null, [];
    var matching: map<nat, Node<V>> := map[];
    var i := |entries|;
    while i > 0
      invariant 0 <= i <= |entries|
      invariant Represents(nodes, entries, i)
      invariant Linked(nodes)
      invariant root == if nodes == [] then null else nodes[0]
      invariant fresh(nodes)
      invariant FirstReturns(matching, nodes, entries, i)
    {
      i := i - 1;
      var elem := entries[i];
      var ret: Node?<V> := null;
      if elem.Call? && elem.id in matching {
        ret := matching[elem.id];
      }
      var entry := new Node(elem.value, ret, elem.id, i);
      RepresentsDistinct(nodes, entries, i + 1);
      RepresentsCons(entry, nodes, entries, i, matching);
      if elem.Return? {
        matching := matching[elem.id := entry];
      }
      root := PushFront(entry, root, nodes);
      nodes := [entry] + nodes;
    }
  }

  lemma WithoutAt<T>(list: seq<T>, i: nat)
    requires i < |list|
    ensures |Removed(list, i)| == |list| - 1
    ensures forall k :: 0 <= k < i ==> Removed(list, i)[k] == list[k]
    ensures forall k :: i <= k < |list| - 1 ==> Removed(list, i)[k] == list[k + 1]
  {}

  lemma WithoutDistinct<V>(list: seq<Node<V>>, i: nat)
    requires i < |list| && Distinct(list)
    ensures Distinct(Removed(list, i)) && list[i] !in Removed(list, i)
  {}

  // Takes the node at i out; the node itself keeps its two pointers.
  method Unlink<V>(n: Node<V>, ghost list: seq<Node<V>>, ghost i: nat)
    requires Distinct(list) && Linked(list)
    requires 1 <= i < |list| && list[i] == n
    modifies n.prev, n.next
    ensures Linked(Removed(list, i))
  {
    ghost var rest := Removed(list, i);
    WithoutAt(list, i);
    n.prev.next := n.next;
    if n.next != null {
      n.next.prev := n.prev;
    }
    assert forall k {:trigger rest[k].next} :: 0 <= k < |rest| - 1 ==> rest[k].next == rest[k + 1];
    assert forall k {:trigger rest[k].prev} :: 0 < k < |rest| ==> rest[k].prev == rest[k - 1];
  }

  // Puts a node back between the two neighbours it remembers.
  method Relink<V>(n: Node<V>, ghost list: seq<Node<V>>, ghost i: nat)
    requires Distinct(list)
    requires 1 <= i < |list| && list[i] == n
    requires Linked(Removed(list, i))
    requires n.prev == list[i - 1]
    requires n.next == if i + 1 < |list| then list[i + 1] else null
    modifies n.prev, n.next
    ensures Linked(list)
  {
    ghost var rest := Removed(list, i);
    WithoutAt(list, i);
    assert n.prev == rest[i - 1] && n.next == if i < |rest| then rest[i] else null;
    n.prev.next := n;
    if n.next != null {
      n.next.prev := n;
    }
    forall k {:trigger list[k].next} | 0 <= k < |list| - 1
      ensures list[k].next == list[k + 1]
    {
      if k < i - 1 {
        assert rest[k].next == rest[k + 1];
      } else if k > i {
        assert rest[k - 1].next == rest[k];
      }
    }
    forall k {:trigger list[k].prev} | 0 < k < |list|
      ensures list[k].prev == list[k - 1]
    {
      if k < i {
        assert rest[k].prev == rest[k - 1];
      } else if k > i + 1 {
        assert rest[k - 1].prev == rest[k - 2];
      }
    }
  }

  method Lift<V>(entry: Node<V>, ghost list: seq<Node<V>>, ghost i: nat, ghost j: nat)
    requires Distinct(list) && Linked(list)
    requires 1 <= i < j < |list| && list[i] == entry && entry.matching == list[j]
    modifies list
    ensures Linked(WithoutPair(list, i, j))
    ensures Remembers(list, i, j)
  {
    WithoutAt(list, i);
    WithoutDistinct(list, i);
    Unlink(entry, list, i);
    Unlink(entry.matching, Removed(list, i), j - 1);
  }

  method Unlift<V>(entry: Node<V>, ghost list: seq<Node<V>>, ghost i: nat, ghost j: nat)
    requires Distinct(list)
    requires 1 <= i < j < |list| && list[i] == entry && entry.matching == list[j]
    requires Linked(WithoutPair(list, i, j))
    requires Remembers(list, i, j)
    modifies list
    ensures Linked(list)
  {
    WithoutAt(list, i);
    WithoutDistinct(list, i);
    Relink(entry.matching, Removed(list, i), j - 1);
    Relink(entry, list, i);
  }
}
