// Choosing node hosts for replicas: the filters of filter.go and the random selector of selector.go.
module Placement {
  import opened Basics
  import opened HostImage

  // What one filter keeps.
  datatype Filter =
    | Basic(shardId: nat)
    | Live(currentTick: nat, gap: nat)
    | Region(region: string)
  {
    predicate Keeps(v: HostSpec)
    {
      match this
      case Basic(shardId) => shardId !in v.shards
      case Live(currentTick, gap) => (currentTick - v.tick) % TWO_64 < gap
      case Region(region) => region == v.region
    }
  }

  predicate KeptByAll(filters: seq<Filter>, v: HostSpec)
  {
    forall f :: f in filters ==> f.Keeps(v)
  }

  // The hosts that pass all filters, in order.
  function Kept(filters: seq<Filter>, input: seq<HostSpec>): seq<HostSpec>
  {
    if input == [] then []
    else Kept(filters, input[..|input| - 1]) + if KeptByAll(filters, input[|input| - 1]) then [input[|input| - 1]] else []
  }

  method FilterOne(f: Filter, input: seq<HostSpec>) returns (result: seq<HostSpec>)
    ensures result == Kept([f], input)
  {
    result := [];
    for i := 0 to |input|
      invariant result == Kept([f], input[..i])
    {
      assert input[..i + 1][..i] == input[..i];
      assert f in [f];
      if f.Keeps(input[i]) {
        result := result + [input[i]];
      }
    }
    assert input[..|input|] == input;
  }

  lemma {:induction false} KeptNone(input: seq<HostSpec>)
    ensures Kept([], input) == input
  {
    if input != [] {
      KeptNone(input[..|input| - 1]);
    }
  }

  lemma {:induction false} KeptTwice(filters: seq<Filter>, f: Filter, input: seq<HostSpec>)
    ensures Kept([f], Kept(filters, input)) == Kept(filters + [f], input)
  {
    if input != [] {
      var v, rest := input[|input| - 1], input[..|input| - 1];
      KeptTwice(filters, f, rest);
      assert KeptByAll(filters + [f], v) <==> KeptByAll(filters, v) && f.Keeps(v);
      assert KeptByAll([f], v) <==> f.Keeps(v);
      var kept := Kept(filters, rest);
      if KeptByAll(filters, v) {
        assert (kept + [v])[..|kept|] == kept;
      } else {
        assert kept + [] == kept;
      }
    }
  }

  // combinedFilter threads the list through its filters; their order is irrelevant.
  method FilterAll(filters: seq<Filter>, input: seq<HostSpec>) returns (list: seq<HostSpec>)
    ensures list == Kept(filters, input)
  {
    list := input;
    KeptNone(input);
    for i := 0 to |filters|
      invariant list == Kept(filters[..i], input)
    {
      KeptTwice(filters[..i], filters[i], input);
      assert filters[..i + 1] == filters[..i] + [filters[i]];
      list := FilterOne(filters[i], list);
    }
    assert filters[..|filters|] == filters;
  }

  lemma {:induction false} KeptMembers(filters: seq<Filter>, input: seq<HostSpec>)
    ensures forall v :: v in Kept(filters, input) <==> v in input && KeptByAll(filters, v)
  {
    if input != [] {
      KeptMembers(filters, input[..|input| - 1]);
      assert input == input[..|input| - 1] + [input[|input| - 1]];
    }
  }

  ghost predicate DistinctSpecs(hosts: seq<HostSpec>)
  {
    forall i, j :: 0 <= i < j < |hosts| ==> hosts[i].address != hosts[j].address
  }

  lemma {:induction false} KeptDistinct(filters: seq<Filter>, input: seq<HostSpec>)
    requires DistinctSpecs(input)
    ensures DistinctSpecs(Kept(filters, input))
  {
    if input != [] {
      var rest := input[..|input| - 1];
      KeptDistinct(filters, rest);
      KeptMembers(filters, rest);
      var kept := Kept(filters, rest);
      forall i | 0 <= i < |kept|
        ensures kept[i].address != input[|input| - 1].address
      {
        assert kept[i] in rest;
        var k :| 0 <= k < |rest| && rest[k] == kept[i];
      }
    }
  }

  // The numbers below n.
  ghost function FirstNats(n: nat): (ks: set<nat>)
    ensures |ks| == n && forall k: nat :: k in ks <==> k < n
  {
    if n == 0 then {} else FirstNats(n - 1) + {n - 1}
  }

  lemma SetGap(a: set<nat>, b: set<nat>)
    requires |b| < |a|
    ensures exists x :: x in a && x !in b
  {
    if a <= b {
      SubsetSmaller(a, b);
    }
  }

  ghost function Elements(s: seq<nat>): (e: set<nat>)
    ensures forall x :: x in e <==> x in s
  {
    if s == [] then {} else Elements(s[..|s| - 1]) + {s[|s| - 1]}
  }

  lemma {:induction false} SeqSetSize(s: seq<nat>)
    ensures |Elements(s)| <= |s|
  {
    if s != [] {
      SeqSetSize(s[..|s| - 1]);
    }
  }

  // Fewer picks than indices leave an index unpicked.
  lemma FreshIndex(selected: seq<nat>, n: nat)
    requires |selected| < n
    ensures exists rv: nat :: rv < n && rv !in selected
  {
    SeqSetSize(selected);
    SetGap(FirstNats(n), Elements(selected));
  }

  // findSuitableNodeHost: nothing when too few hosts pass, otherwise `count` different ones. The
  // draws that repeat an index are skipped over: the model takes the next draw that does not.
  method FindSuitableNodeHost(filters: seq<Filter>, input: seq<HostSpec>, count: nat) returns (result: seq<HostSpec>)
    requires DistinctSpecs(input)
    ensures DistinctSpecs(result)
    ensures |result| == if |Kept(filters, input)| < count then 0 else count
    ensures forall v :: v in result ==> v in input && KeptByAll(filters, v)
  {
    var filtered := FilterAll(filters, input);
    KeptMembers(filters, input);
    KeptDistinct(filters, input);
    if |filtered| < count {
      return [];
    }
    var selected: seq<nat> := [];
    while |selected| != count
      invariant |selected| <= count
      invariant forall k :: 0 <= k < |selected| ==> selected[k] < |filtered|
      invariant forall k, l :: 0 <= k < l < |selected| ==> selected[k] != selected[l]
      decreases count - |selected|
    {
      FreshIndex(selected, |filtered|);
      var rv: nat :| rv < |filtered| && rv !in selected;
      selected := selected + [rv];
    }
    result := [];
    for k := 0 to |selected|
      invariant |result| == k
      invariant forall l :: 0 <= l < k ==> result[l] == filtered[selected[l]]
    {
      result := result + [filtered[selected[k]]];
    }
    forall i, j | 0 <= i < j < |result|
      ensures result[i].address != result[j].address
    {
      assert selected[i] != selected[j];
    }
  }
}
