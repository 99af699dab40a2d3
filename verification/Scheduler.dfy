// The scheduler (scheduler.go, drummer.go): from one snapshot of the database to requests.
module Scheduler {
  import opened Basics
  import opened ShardImage
  import opened HostImage
  import opened Placement

  datatype Kind = CREATE | DELETE | ADD | KILL

  // One request to a node host.
  datatype Request = Request(kind: Kind, shardId: nat, members: seq<nat>, confChangeId: nat, raftAddress: string,
                             replicaIdList: seq<nat>, addressList: seq<string>, instantiateReplicaId: nat,
                             join: bool, restore: bool, appName: string)

  // A shard as the operator defined it.
  datatype ShardDef = ShardDef(shardId: nat, members: seq<nat>, appName: string)

  // What a scheduler reads from the database in one lookup.
  datatype Context = Context(tick: nat, shards: seq<ShardDef>, regions: seq<(string, nat)>, image: Image, hosts: Hosts,
                             kills: seq<ReplicaToKill>)

  // ----- what a context is owed, and what a scheduler may answer it with

  ghost predicate KeyedRecord(c: ShardRecord)
  {
    forall r :: r in c.replicas ==> c.replicas[r].replicaId == r && c.replicas[r].shardId == c.shardId
  }

  // Records carry their own keys, as every record the image ever builds does.
  ghost predicate WellKeyed(ctx: Context)
  {
    && (forall s :: s in ctx.image ==> ctx.image[s].shardId == s && KeyedRecord(ctx.image[s]))
    && (forall a :: a in ctx.hosts ==> ctx.hosts[a].address == a)
  }

  // Every imaged shard has a definition; getShardSize and getAppName panic otherwise.
  ghost predicate Defined(ctx: Context)
  {
    forall s :: s in ctx.image ==> exists k :: 0 <= k < |ctx.shards| && ctx.shards[k].shardId == s
  }

  function DefIndex(shards: seq<ShardDef>, s: nat): (k: nat)
    ensures k < |shards| ==> shards[k].shardId == s
    ensures forall i :: 0 <= i < k && i < |shards| ==> shards[i].shardId != s
  {
    if shards == [] || shards[0].shardId == s then 0 else 1 + DefIndex(shards[1..], s)
  }

  // The size the operator asked for.
  function ExpectedSize(ctx: Context, s: nat): nat
  {
    var k := DefIndex(ctx.shards, s);
    if k < |ctx.shards| then |ctx.shards[k].members| else 0
  }

  // The application the operator asked for.
  function AppName(ctx: Context, s: nat): string
  {
    var k := DefIndex(ctx.shards, s);
    if k < |ctx.shards| then ctx.shards[k].appName else ""
  }

  function FailedIds(c: ShardRecord, tick: nat): set<nat>
  {
    set r | r in c.replicas && c.replicas[r].Failed(tick)
  }

  function OkIds(c: ShardRecord, tick: nat): set<nat>
  {
    set r | r in c.replicas && c.replicas[r].Ok(tick)
  }

  function WaitingIds(c: ShardRecord, tick: nat): set<nat>
  {
    set r | r in c.replicas && c.replicas[r].Waiting(tick)
  }

  function Quorum(c: ShardRecord): nat
  {
    |c.replicas| / 2 + 1
  }

  predicate Available(c: ShardRecord, tick: nat)
  {
    |OkIds(c, tick)| >= Quorum(c)
  }

  predicate DeleteNeeded(c: ShardRecord, tick: nat, expected: nat)
  {
    Available(c, tick) && FailedIds(c, tick) != {} && |FailedIds(c, tick)| + |OkIds(c, tick)| > expected
  }

  predicate CreateNeeded(c: ShardRecord, tick: nat)
  {
    WaitingIds(c, tick) != {}
  }

  predicate AddNeeded(c: ShardRecord, tick: nat)
  {
    FailedIds(c, tick) != {} && WaitingIds(c, tick) == {} && Available(c, tick)
  }

  predicate RestoreNeeded(c: ShardRecord, tick: nat)
  {
    !Available(c, tick) && WaitingIds(c, tick) == {}
  }

  // A host that is up and still has the log of replica r.
  predicate CanRestore(ctx: Context, c: ShardRecord, r: nat)
  {
    && r in FailedIds(c, ctx.tick)
    && var a := c.replicas[r].address;
       a in ctx.hosts && ctx.hosts[a].Available(ctx.tick) && ctx.hosts[a].HasLog(c.shardId, r)
  }

  // A CREATE for replica r of c, listing the whole membership.
  ghost predicate CreateOf(c: ShardRecord, r: nat, q: Request)
  {
    && q.kind == CREATE && q.shardId == c.shardId && r in c.replicas
    && q.instantiateReplicaId == r && q.raftAddress == c.replicas[r].address && q.members == q.replicaIdList
    && |q.replicaIdList| == |q.addressList| == |c.replicas|
    && (forall k :: 0 <= k < |q.replicaIdList| ==>
          q.replicaIdList[k] in c.replicas && q.addressList[k] == c.replicas[q.replicaIdList[k]].address)
    && (forall x :: x in c.replicas ==> x in q.replicaIdList)
  }

  const UNKNOWN_REGION: string := "UNKNOWN"

  // A host that can take a new replica of shard s.
  ghost predicate Suitable(ctx: Context, s: nat, a: string)
  {
    a in ctx.hosts && s !in ctx.hosts[a].shards && (ctx.tick - ctx.hosts[a].tick) % TWO_64 < NODE_HOST_TTL
  }

  // Where a replica at this address is, or was.
  function RegionOf(ctx: Context, address: string): string
  {
    if address in ctx.hosts then ctx.hosts[address].region else UNKNOWN_REGION
  }

  // Host a is in the region of the address, if any host there is suitable.
  ghost predicate Near(ctx: Context, s: nat, address: string, a: string)
  {
    (exists b :: Suitable(ctx, s, b) && ctx.hosts[b].region == RegionOf(ctx, address)) ==>
      a in ctx.hosts && ctx.hosts[a].region == RegionOf(ctx, address)
  }

  // The one repair step a shard gets: DELETE before CREATE before ADD. An ADD goes to the region of a
  // failed replica, if that has a suitable host.
  ghost predicate MayRepair(ctx: Context, q: Request)
  {
    && q.shardId in ctx.image
    && var c := ctx.image[q.shardId];
       if DeleteNeeded(c, ctx.tick, ExpectedSize(ctx, q.shardId)) then
         && q.kind == DELETE && q.confChangeId == c.index
         && |q.members| == 1 && q.members[0] in FailedIds(c, ctx.tick)
         && (exists r :: r in OkIds(c, ctx.tick) && q.raftAddress == c.replicas[r].address)
       else if CreateNeeded(c, ctx.tick) then
         && q.join && !q.restore && q.instantiateReplicaId in WaitingIds(c, ctx.tick)
         && CreateOf(c, q.instantiateReplicaId, q) && q.appName == AppName(ctx, q.shardId)
       else
         && AddNeeded(c, ctx.tick)
         && q.kind == ADD && q.confChangeId == c.index && |q.members| == 1
         && (exists r :: r in OkIds(c, ctx.tick) && q.raftAddress == c.replicas[r].address)
         && |q.addressList| == 1 && Suitable(ctx, q.shardId, q.addressList[0])
         && (exists r :: r in FailedIds(c, ctx.tick) && Near(ctx, q.shardId, c.replicas[r].address, q.addressList[0]))
  }

  ghost function RestorableIds(ctx: Context, c: ShardRecord): set<nat>
  {
    set r | r in c.replicas && CanRestore(ctx, c, r)
  }

  // Enough replicas can come back for the shard to have a quorum again.
  ghost predicate Restorable(ctx: Context, c: ShardRecord)
  {
    |OkIds(c, ctx.tick)| + |RestorableIds(ctx, c)| >= Quorum(c)
  }

  ghost predicate MayRestore(ctx: Context, q: Request)
  {
    && q.shardId in ctx.image
    && var c := ctx.image[q.shardId];
       && !q.join && q.restore
       && CanRestore(ctx, c, q.instantiateReplicaId)
       && CreateOf(c, q.instantiateReplicaId, q) && q.appName == AppName(ctx, q.shardId)
       && (RestoreNeeded(c, ctx.tick) ==> Restorable(ctx, c))
  }

  ghost predicate MayKill(ctx: Context, q: Request)
  {
    && q.kind == KILL && |q.members| == 1
    && ReplicaToKill(q.shardId, q.members[0], q.raftAddress) in ctx.kills
  }

  // ----- classification

  // ok, failed and waiting replicas partition a shard.
  lemma Partition(c: ShardRecord, tick: nat)
    ensures |FailedIds(c, tick)| + |OkIds(c, tick)| + |WaitingIds(c, tick)| == |c.replicas|
    ensures FailedIds(c, tick) !! OkIds(c, tick) && WaitingIds(c, tick) !! (FailedIds(c, tick) + OkIds(c, tick))
    ensures FailedIds(c, tick) + OkIds(c, tick) + WaitingIds(c, tick) == c.replicas.Keys
  {
    var f, o, w := FailedIds(c, tick), OkIds(c, tick), WaitingIds(c, tick);
    assert f + o + w == c.replicas.Keys;
    assert |f + o| == |f| + |o|;
    assert |f + o + w| == |f + o| + |w|;
  }

  // `list` lists the replicas of c with ids in `ids`, each once.
  ghost predicate Lists(list: seq<Replica>, c: ShardRecord, ids: set<nat>)
  {
    && ids <= c.replicas.Keys
    && (forall k :: 0 <= k < |list| ==> list[k].replicaId in ids && c.replicas[list[k].replicaId] == list[k])
    && (forall k, l :: 0 <= k < l < |list| ==> list[k].replicaId != list[l].replicaId)
    && |list| == |ids|
  }

  lemma ListsGrow(list: seq<Replica>, c: ShardRecord, ids: set<nat>, r: nat)
    requires Lists(list, c, ids) && KeyedRecord(c) && r in c.replicas && r !in ids
    ensures Lists(list + [c.replicas[r]], c, ids + {r})
  {}

  lemma ListsNothing(c: ShardRecord, all: set<nat>)
    requires all <= c.replicas.Keys
    ensures Lists([], c, all - c.replicas.Keys)
  {
    assert all - c.replicas.Keys == {};
  }

  // One replica less to look at.
  lemma ListsNext(list: seq<Replica>, c: ShardRecord, all: set<nat>, ids: set<nat>, r: nat)
    requires Lists(list, c, all - ids) && KeyedRecord(c) && r in ids && ids <= c.replicas.Keys
    ensures Lists(if r in all then list + [c.replicas[r]] else list, c, all - (ids - {r}))
  {
    if r in all {
      ListsGrow(list, c, all - ids, r);
      assert all - (ids - {r}) == all - ids + {r};
    } else {
      assert all - (ids - {r}) == all - ids;
    }
  }

  method GetFailedReplicas(c: ShardRecord, tick: nat) returns (result: seq<Replica>)
    requires KeyedRecord(c)
    ensures Lists(result, c, FailedIds(c, tick))
  {
    hide Lists, KeyedRecord;
    result := [];
    var ids := c.replicas.Keys;
    ListsNothing(c, FailedIds(c, tick));
    while ids != {}
      invariant ids <= c.replicas.Keys && Lists(result, c, FailedIds(c, tick) - ids)
      decreases ids
    {
      var r :| r in ids;
      ListsNext(result, c, FailedIds(c, tick), ids, r);
      if c.replicas[r].Failed(tick) {
        result := result + [c.replicas[r]];
      }
      ids := ids - {r};
    }
    assert FailedIds(c, tick) - ids == FailedIds(c, tick);
  }

  method GetOkReplicas(c: ShardRecord, tick: nat) returns (result: seq<Replica>)
    requires KeyedRecord(c)
    ensures Lists(result, c, OkIds(c, tick))
  {
    hide Lists, KeyedRecord;
    result := [];
    var ids := c.replicas.Keys;
    ListsNothing(c, OkIds(c, tick));
    while ids != {}
      invariant ids <= c.replicas.Keys && Lists(result, c, OkIds(c, tick) - ids)
      decreases ids
    {
      var r :| r in ids;
      ListsNext(result, c, OkIds(c, tick), ids, r);
      if !c.replicas[r].Failed(tick) && !c.replicas[r].Waiting(tick) {
        result := result + [c.replicas[r]];
      }
      ids := ids - {r};
    }
    assert OkIds(c, tick) - ids == OkIds(c, tick);
  }

  method GetReplicasToStart(c: ShardRecord, tick: nat) returns (result: seq<Replica>)
    requires KeyedRecord(c)
    ensures Lists(result, c, WaitingIds(c, tick))
  {
    hide Lists, KeyedRecord;
    result := [];
    var ids := c.replicas.Keys;
    ListsNothing(c, WaitingIds(c, tick));
    while ids != {}
      invariant ids <= c.replicas.Keys && Lists(result, c, WaitingIds(c, tick) - ids)
      decreases ids
    {
      var r :| r in ids;
      ListsNext(result, c, WaitingIds(c, tick), ids, r);
      if c.replicas[r].Waiting(tick) {
        result := result + [c.replicas[r]];
      }
      ids := ids - {r};
    }
    assert WaitingIds(c, tick) - ids == WaitingIds(c, tick);
  }

  // ----- repair

  datatype ShardRepair = ShardRepair(shardId: nat, shard: ShardRecord, failedReplicas: seq<Replica>,
                                     okReplicas: seq<Replica>, replicasToStart: seq<Replica>)
  {
    function QuorumSize(): nat { (|failedReplicas| + |okReplicas| + |replicasToStart|) / 2 + 1 }

    predicate IsAvailable() { |okReplicas| >= QuorumSize() }

    predicate AddRequired() { |failedReplicas| > 0 && |replicasToStart| == 0 && IsAvailable() }

    predicate CreateRequired() { |replicasToStart| > 0 }

    predicate DeleteRequired(expectedShardSize: nat)
    {
      IsAvailable() && |failedReplicas| > 0 && |failedReplicas| + |okReplicas| > expectedShardSize
    }

    predicate NeedToBeRestored() { !(IsAvailable() || |replicasToStart| > 0) }
  }

  ghost predicate Classified(ctx: Context, cc: ShardRepair)
  {
    && cc.shardId in ctx.image && cc.shard == ctx.image[cc.shardId]
    && Lists(cc.failedReplicas, cc.shard, FailedIds(cc.shard, ctx.tick))
    && Lists(cc.okReplicas, cc.shard, OkIds(cc.shard, ctx.tick))
    && Lists(cc.replicasToStart, cc.shard, WaitingIds(cc.shard, ctx.tick))
  }

  // The predicates on list lengths say what the specification says on sets.
  lemma ClassifiedMeans(ctx: Context, cc: ShardRepair)
    requires Classified(ctx, cc)
    ensures cc.QuorumSize() == Quorum(cc.shard) && |cc.okReplicas| == |OkIds(cc.shard, ctx.tick)|
    ensures cc.IsAvailable() <==> Available(cc.shard, ctx.tick)
    ensures cc.AddRequired() <==> AddNeeded(cc.shard, ctx.tick)
    ensures cc.CreateRequired() <==> CreateNeeded(cc.shard, ctx.tick)
    ensures forall e :: cc.DeleteRequired(e) <==> DeleteNeeded(cc.shard, ctx.tick, e)
    ensures cc.NeedToBeRestored() <==> RestoreNeeded(cc.shard, ctx.tick)
  {
    Partition(cc.shard, ctx.tick);
  }

  lemma InImage(ctx: Context, cc: ShardRepair)
    requires Classified(ctx, cc)
    ensures cc.shardId in ctx.image && cc.shard == ctx.image[cc.shardId]
  {}

  lemma FailedOfShard(ctx: Context, cc: ShardRepair)
    requires WellKeyed(ctx) && Classified(ctx, cc)
    ensures forall k :: 0 <= k < |cc.failedReplicas| ==> cc.failedReplicas[k].shardId == cc.shardId
  {}

  datatype Requests = Requests(reqs: seq<Request>) | NotEnoughNodeHost

  ghost predicate NeedsRepair(ctx: Context, s: nat)
  {
    && s in ctx.image
    && (DeleteNeeded(ctx.image[s], ctx.tick, ExpectedSize(ctx, s)) || CreateNeeded(ctx.image[s], ctx.tick)
        || AddNeeded(ctx.image[s], ctx.tick))
  }

  // Neither DELETE nor CREATE is called for, but ADD is.
  ghost predicate AtAdd(ctx: Context, s: nat)
  {
    && s in ctx.image && !DeleteNeeded(ctx.image[s], ctx.tick, ExpectedSize(ctx, s))
    && !CreateNeeded(ctx.image[s], ctx.tick) && AddNeeded(ctx.image[s], ctx.tick)
  }

  // The shard needs an ADD that no host can take.
  ghost predicate Stuck(ctx: Context, s: nat)
  {
    AtAdd(ctx, s) && forall a :: !Suitable(ctx, s, a)
  }

  ghost predicate DistinctShards(reqs: seq<Request>)
  {
    forall i, j :: 0 <= i < j < |reqs| ==> reqs[i].shardId != reqs[j].shardId
  }

  // ----- launch

  datatype LaunchOutcome = Launched(reqs: seq<Request>) | LaunchError | LaunchPanic

  ghost function Flatten(plans: seq<seq<Request>>): seq<Request>
  {
    if plans == [] then [] else Flatten(plans[..|plans| - 1]) + plans[|plans| - 1]
  }

  ghost predicate DistinctRegions(regions: seq<(string, nat)>)
  {
    forall i, j :: 0 <= i < j < |regions| ==> regions[i].0 != regions[j].0
  }

  // A live host of the region without a replica of shard s.
  ghost predicate LaunchHost(ctx: Context, s: nat, region: string, a: string)
  {
    && a in ctx.hosts && s !in ctx.hosts[a].shards && ctx.hosts[a].region == region
    && (ctx.tick - ctx.hosts[a].tick) % TWO_64 < NODE_HOST_TTL
  }

  ghost predicate InRegions(ctx: Context, s: nat, regions: seq<(string, nat)>, a: string)
  {
    exists k :: 0 <= k < |regions| && LaunchHost(ctx, s, regions[k].0, a)
  }

  ghost function Passing(ctx: Context, s: nat, region: string): set<string>
  {
    set a | a in ctx.hosts && LaunchHost(ctx, s, region, a)
  }

  // How many hosts a region gives: its count, or none when fewer pass.
  ghost function Drawn(ctx: Context, s: nat, region: (string, nat)): nat
  {
    if |Passing(ctx, s, region.0)| < region.1 then 0 else region.1
  }

  ghost function DrawnFrom(ctx: Context, s: nat, regions: seq<(string, nat)>): nat
  {
    if regions == [] then 0 else DrawnFrom(ctx, s, regions[..|regions| - 1]) + Drawn(ctx, s, regions[|regions| - 1])
  }

  // The hosts drawn for a shard over its members.
  ghost function Surplus(ctx: Context, shard: ShardDef): int
  {
    DrawnFrom(ctx, shard.shardId, ctx.regions) - |shard.members|
  }

  // Shard k is the first for which the hosts drawn are not as many as the members.
  ghost predicate FirstOff(ctx: Context, k: nat)
  {
    k < |ctx.shards| && Surplus(ctx, ctx.shards[k]) != 0 && forall l :: 0 <= l < k ==> Surplus(ctx, ctx.shards[l]) == 0
  }

  // q starts member k of the shard at address k, and tells it all members and addresses.
  ghost predicate Launches(shard: ShardDef, addressList: seq<string>, k: nat, q: Request)
    requires |addressList| == |shard.members| && k < |addressList|
  {
    && q.kind == CREATE && !q.join && !q.restore && q.shardId == shard.shardId && q.appName == shard.appName
    && q.members == shard.members && q.replicaIdList == shard.members && q.addressList == addressList
    && q.instantiateReplicaId == shard.members[k] && q.raftAddress == addressList[k]
  }

  // The first n regions have given the addresses, each its own in turn.
  ghost predicate ByRegion(ctx: Context, s: nat, n: nat, addressList: seq<string>)
    requires n <= |ctx.regions|
  {
    forall k, j :: 0 <= k < n && 0 <= j < |addressList|
                   && DrawnFrom(ctx, s, ctx.regions[..k]) <= j < DrawnFrom(ctx, s, ctx.regions[..k + 1]) ==>
      LaunchHost(ctx, s, ctx.regions[k].0, addressList[j])
  }

  // One live host of the regions per member; all different if the regions are.
  ghost predicate LaunchAddresses(ctx: Context, shard: ShardDef, addressList: seq<string>)
  {
    && |addressList| == |shard.members|
    && ByRegion(ctx, shard.shardId, |ctx.regions|, addressList)
    && (forall k :: 0 <= k < |addressList| ==> InRegions(ctx, shard.shardId, ctx.regions, addressList[k]))
    && (DistinctRegions(ctx.regions) ==> forall i, j :: 0 <= i < j < |addressList| ==> addressList[i] != addressList[j])
  }

  // The requests that launch one shard: member k goes to address k.
  ghost predicate LaunchOf(ctx: Context, shard: ShardDef, reqs: seq<Request>)
  {
    exists addressList :: LaunchAddresses(ctx, shard, addressList) && |reqs| == |shard.members|
      && forall k :: 0 <= k < |reqs| ==> Launches(shard, addressList, k, reqs[k])
  }

  // One plan for every shard, in order.
  ghost predicate PlansFor(ctx: Context, plans: seq<seq<Request>>)
  {
    |plans| == |ctx.shards| && forall k :: 0 <= k < |plans| ==> LaunchOf(ctx, ctx.shards[k], plans[k])
  }

  lemma ConcatAt<T>(a: seq<T>, b: seq<T>)
    ensures forall i :: 0 <= i < |a| ==> (a + b)[i] == a[i] && a[i] in a
    ensures forall j :: |a| <= j < |a + b| ==> (a + b)[j] == b[j - |a|] && b[j - |a|] in b
  {}

  ghost function Addresses(list: seq<HostSpec>): (e: set<string>)
    ensures forall a :: a in e <==> exists k :: 0 <= k < |list| && list[k].address == a
  {
    set k | 0 <= k < |list| :: list[k].address
  }

  lemma {:induction false} AddressesSize(list: seq<HostSpec>)
    requires DistinctSpecs(list)
    ensures |Addresses(list)| == |list|
  {
    if list == [] {
      assert Addresses(list) == {};
    } else {
      var n := |list| - 1;
      AddressesSize(list[..n]);
      assert Addresses(list) == Addresses(list[..n]) + {list[n].address};
    }
  }

  lemma RegionFilters(ctx: Context, s: nat, region: string, v: HostSpec)
    requires v.address in ctx.hosts && ctx.hosts[v.address] == v
    ensures KeptByAll([Live(ctx.tick, NODE_HOST_TTL), Basic(s), Region(region)], v) <==> LaunchHost(ctx, s, region, v.address)
  {
    var filters := [Live(ctx.tick, NODE_HOST_TTL), Basic(s), Region(region)];
    assert filters[0] in filters && filters[1] in filters && filters[2] in filters;
    assert KeptByAll(filters, v) <==> filters[0].Keeps(v) && filters[1].Keeps(v) && filters[2].Keeps(v);
  }

  // As many hosts pass the filters as the region has suitable ones.
  lemma PassingCount(ctx: Context, s: nat, region: string, list: seq<HostSpec>)
    requires DistinctSpecs(list) && forall v :: v in list <==> v.address in ctx.hosts && ctx.hosts[v.address] == v
    requires forall a :: a in ctx.hosts ==> ctx.hosts[a].address == a
    ensures |Kept([Live(ctx.tick, NODE_HOST_TTL), Basic(s), Region(region)], list)| == |Passing(ctx, s, region)|
  {
    var filters := [Live(ctx.tick, NODE_HOST_TTL), Basic(s), Region(region)];
    var kept := Kept(filters, list);
    KeptMembers(filters, list);
    KeptDistinct(filters, list);
    AddressesSize(kept);
    hide LaunchHost, KeptByAll, Kept;
    forall a
      ensures a in Addresses(kept) <==> a in Passing(ctx, s, region)
    {
      if a in ctx.hosts {
        RegionFilters(ctx, s, region, ctx.hosts[a]);
        if a in Passing(ctx, s, region) {
          var k :| 0 <= k < |kept| && kept[k] == ctx.hosts[a];
        }
      }
      if a in Addresses(kept) {
        var k :| 0 <= k < |kept| && kept[k].address == a;
        assert kept[k] in kept;
      }
    }
    assert Addresses(kept) == Passing(ctx, s, region);
  }

  ghost predicate AllInRegions(ctx: Context, s: nat, regions: seq<(string, nat)>, list: seq<HostSpec>)
  {
    forall v :: v in list ==> v.address in ctx.hosts && ctx.hosts[v.address] == v && InRegions(ctx, s, regions, v.address)
  }

  // Hosts of a further region are new: a host is in one region only.
  lemma RegionJoin(ctx: Context, s: nat, idx: nat, selected: seq<HostSpec>, more: seq<HostSpec>)
    requires idx < |ctx.regions| && AllInRegions(ctx, s, ctx.regions[..idx], selected)
    requires forall v :: v in more ==>
               v.address in ctx.hosts && ctx.hosts[v.address] == v && LaunchHost(ctx, s, ctx.regions[idx].0, v.address)
    ensures AllInRegions(ctx, s, ctx.regions[..idx + 1], selected + more)
    ensures DistinctRegions(ctx.regions) && DistinctSpecs(selected) && DistinctSpecs(more) ==> DistinctSpecs(selected + more)
  {
    var now := ctx.regions[..idx + 1];
    assert now[idx] == ctx.regions[idx];
    forall v | v in selected
      ensures InRegions(ctx, s, now, v.address) && (DistinctRegions(ctx.regions) ==> v.region != ctx.regions[idx].0)
    {
      var k :| 0 <= k < idx && LaunchHost(ctx, s, ctx.regions[..idx][k].0, v.address);
      assert now[k] == ctx.regions[k];
    }
    forall v | v in more
      ensures InRegions(ctx, s, now, v.address) && v.region == ctx.regions[idx].0
    {
      assert LaunchHost(ctx, s, now[idx].0, v.address);
    }
    ConcatAt(selected, more);
  }

  lemma {:induction false} DrawnGrows(ctx: Context, s: nat, k: nat, n: nat)
    requires k <= n <= |ctx.regions|
    ensures DrawnFrom(ctx, s, ctx.regions[..k]) <= DrawnFrom(ctx, s, ctx.regions[..n])
    decreases n
  {
    hide Drawn;
    if k < n {
      DrawnGrows(ctx, s, k, n - 1);
      assert ctx.regions[..n][..n - 1] == ctx.regions[..n - 1];
    }
  }

  lemma ByRegionGrows(ctx: Context, s: nat, n: nat, from: seq<string>, more: seq<string>)
    requires n < |ctx.regions| && ByRegion(ctx, s, n, from) && |from| == DrawnFrom(ctx, s, ctx.regions[..n])
    requires forall j :: 0 <= j < |more| ==> LaunchHost(ctx, s, ctx.regions[n].0, more[j])
    ensures ByRegion(ctx, s, n + 1, from + more)
  {
    hide LaunchHost, DrawnFrom;
    forall k, j | 0 <= k < n + 1 && 0 <= j < |from + more|
                  && DrawnFrom(ctx, s, ctx.regions[..k]) <= j < DrawnFrom(ctx, s, ctx.regions[..k + 1])
      ensures LaunchHost(ctx, s, ctx.regions[k].0, (from + more)[j])
    {
      if k < n {
        DrawnGrows(ctx, s, k + 1, n);
        assert (from + more)[j] == from[j];
      } else {
        assert (from + more)[j] == more[j - |from|];
      }
    }
  }

  function AddressesOf(list: seq<HostSpec>): seq<string>
  {
    seq(|list|, k requires 0 <= k < |list| => list[k].address)
  }

  // The first n regions have given what they had to give.
  ghost predicate SelectedFrom(ctx: Context, s: nat, n: nat, selected: seq<HostSpec>)
    requires n <= |ctx.regions|
  {
    && |selected| == DrawnFrom(ctx, s, ctx.regions[..n]) && AllInRegions(ctx, s, ctx.regions[..n], selected)
    && ByRegion(ctx, s, n, AddressesOf(selected)) && (DistinctRegions(ctx.regions) ==> DistinctSpecs(selected))
  }

  lemma SelectNext(ctx: Context, s: nat, n: nat, selected: seq<HostSpec>, more: seq<HostSpec>)
    requires n < |ctx.regions| && SelectedFrom(ctx, s, n, selected)
    requires |more| == Drawn(ctx, s, ctx.regions[n]) && DistinctSpecs(more)
    requires forall v :: v in more ==>
               v.address in ctx.hosts && ctx.hosts[v.address] == v && LaunchHost(ctx, s, ctx.regions[n].0, v.address)
    ensures SelectedFrom(ctx, s, n + 1, selected + more)
  {
    hide DistinctRegions, DistinctSpecs, AllInRegions, LaunchHost, Drawn, ByRegion;
    RegionJoin(ctx, s, n, selected, more);
    assert forall j :: 0 <= j < |more| ==> more[j] in more;
    ByRegionGrows(ctx, s, n, AddressesOf(selected), AddressesOf(more));
    assert AddressesOf(selected + more) == AddressesOf(selected) + AddressesOf(more);
    assert ctx.regions[..n + 1][..n] == ctx.regions[..n];
  }

  lemma NothingSelected(ctx: Context, s: nat)
    ensures SelectedFrom(ctx, s, 0, [])
  {}

  // ----- a round of maintenance

  function KillRequest(ntk: ReplicaToKill): Request
  {
    Request(KILL, ntk.shardId, [ntk.replicaId], 0, ntk.address, [], [], 0, false, false, "")
  }

  // Of two requests for one shard in one round, neither a KILL, both bring back failed replicas,
  // and different ones.
  ghost predicate Coherent(ctx: Context, reqs: seq<Request>)
  {
    forall i, j :: 0 <= i < j < |reqs| && reqs[i].shardId == reqs[j].shardId && reqs[i].kind != KILL && reqs[j].kind != KILL ==>
      && MayRestore(ctx, reqs[i]) && MayRestore(ctx, reqs[j])
      && reqs[i].instantiateReplicaId != reqs[j].instantiateReplicaId
  }

  ghost predicate DistinctReplicas(reqs: seq<Request>)
  {
    forall i, j :: 0 <= i < j < |reqs| && reqs[i].shardId == reqs[j].shardId ==>
      reqs[i].instantiateReplicaId != reqs[j].instantiateReplicaId
  }

  // Replica r can come back, and its shard is available or would be with all that can.
  ghost predicate RestoreCalledFor(ctx: Context, s: nat, r: nat)
  {
    && s in ctx.image && r in RestorableIds(ctx, ctx.image[s])
    && (RestoreNeeded(ctx.image[s], ctx.tick) ==> Restorable(ctx, ctx.image[s]))
  }

  // Replicas of the shard are being brought back.
  ghost predicate BeingRestored(ctx: Context, s: nat)
  {
    s in ctx.image && exists r :: RestoreCalledFor(ctx, s, r)
  }

  ghost predicate RestoredIn(ctx: Context, reqs: seq<Request>, s: nat, r: nat)
  {
    exists q :: q in reqs && q.shardId == s && q.instantiateReplicaId == r && MayRestore(ctx, q)
  }

  ghost predicate RepairedIn(ctx: Context, reqs: seq<Request>, s: nat)
  {
    exists q :: q in reqs && q.shardId == s && MayRepair(ctx, q) && q.kind != KILL
  }

  // What a round of maintenance hands out: all restores, repairs and kills that are called for and
  // nothing else. One stuck shard that is not being restored stops everything.
  ghost predicate Maintained(ctx: Context, result: Requests)
  {
    match result
    case NotEnoughNodeHost => exists s :: Stuck(ctx, s) && !BeingRestored(ctx, s)
    case Requests(reqs) =>
      && (forall s :: Stuck(ctx, s) ==> BeingRestored(ctx, s))
      && (forall q :: q in reqs ==> MayRestore(ctx, q) || (MayRepair(ctx, q) && q.kind != KILL) || MayKill(ctx, q))
      && Coherent(ctx, reqs)
      && (forall s, r :: RestoreCalledFor(ctx, s, r) ==> RestoredIn(ctx, reqs, s, r))
      && (forall s :: NeedsRepair(ctx, s) && !BeingRestored(ctx, s) ==> RepairedIn(ctx, reqs, s))
      && forall k :: k in ctx.kills ==> KillRequest(k) in reqs
  }

  ghost predicate Restores(reqs: seq<Request>, s: nat, r: nat)
  {
    exists k :: 0 <= k < |reqs| && reqs[k].shardId == s && reqs[k].instantiateReplicaId == r
  }

  // The shards with a restore are those being restored.
  lemma RestoredShards(ctx: Context, reqs: seq<Request>, s: nat)
    requires forall q :: q in reqs ==> MayRestore(ctx, q)
    requires forall s, r :: RestoreCalledFor(ctx, s, r) ==> Restores(reqs, s, r)
    ensures BeingRestored(ctx, s) <==> exists q :: q in reqs && q.shardId == s
  {
    hide CanRestore, Restorable, RestoreNeeded;
    if BeingRestored(ctx, s) {
      var r :| RestoreCalledFor(ctx, s, r);
      var k :| 0 <= k < |reqs| && reqs[k].shardId == s && reqs[k].instantiateReplicaId == r;
      assert reqs[k] in reqs;
    }
    if q :| q in reqs && q.shardId == s {
      assert RestoreCalledFor(ctx, s, q.instantiateReplicaId);
    }
  }

  lemma RepairIsNoKill(ctx: Context, q: Request)
    requires MayRepair(ctx, q)
    ensures q.kind != KILL
  {}

  ghost predicate Answers(reqs: seq<Request>, s: nat)
  {
    exists k :: 0 <= k < |reqs| && reqs[k].shardId == s
  }

  lemma RoundMaintains(ctx: Context, restores: seq<Request>, repairs: seq<Request>, kills: seq<Request>)
    requires forall q :: q in restores ==> MayRestore(ctx, q)
    requires forall s, r :: RestoreCalledFor(ctx, s, r) ==> Restores(restores, s, r)
    requires forall q :: q in repairs ==> MayRepair(ctx, q)
    requires forall s :: NeedsRepair(ctx, s) && !BeingRestored(ctx, s) ==> Answers(repairs, s)
    requires forall k :: k in ctx.kills ==> KillRequest(k) in kills
    ensures forall s, r :: RestoreCalledFor(ctx, s, r) ==> RestoredIn(ctx, restores + repairs + kills, s, r)
    ensures forall s :: NeedsRepair(ctx, s) && !BeingRestored(ctx, s) ==> RepairedIn(ctx, restores + repairs + kills, s)
    ensures forall k :: k in ctx.kills ==> KillRequest(k) in restores + repairs + kills
  {
    hide RestoreCalledFor, NeedsRepair, BeingRestored, MayRestore;
    var all := restores + repairs + kills;
    forall s, r | RestoreCalledFor(ctx, s, r)
      ensures RestoredIn(ctx, all, s, r)
    {
      var k :| 0 <= k < |restores| && restores[k].shardId == s && restores[k].instantiateReplicaId == r;
      assert restores[k] in all;
    }
    forall s | NeedsRepair(ctx, s) && !BeingRestored(ctx, s)
      ensures RepairedIn(ctx, all, s)
    {
      var k :| 0 <= k < |repairs| && repairs[k].shardId == s;
      assert repairs[k] in repairs && repairs[k] in all;
      RepairIsNoKill(ctx, repairs[k]);
    }
  }

  lemma CoherentRound(ctx: Context, restores: seq<Request>, repairs: seq<Request>, kills: seq<Request>)
    requires forall q :: q in restores ==> MayRestore(ctx, q)
    requires DistinctReplicas(restores) && DistinctShards(repairs)
    requires forall q, p :: q in repairs && p in restores ==> q.shardId != p.shardId
    requires forall q :: q in kills ==> MayKill(ctx, q)
    ensures Coherent(ctx, restores + repairs + kills)
  {
    hide MayRestore;
    assert forall q :: q in kills ==> q.kind == KILL;
    hide MayKill;
    ConcatAt(restores, repairs);
    ConcatAt(restores + repairs, kills);
  }

  // ----- lists of replicas and of requests

  lemma RestoresJoin(a: seq<Request>, b: seq<Request>)
    ensures forall s, r :: Restores(a, s, r) || Restores(b, s, r) ==> Restores(a + b, s, r)
  {
    forall s, r | Restores(a, s, r) || Restores(b, s, r)
      ensures Restores(a + b, s, r)
    {
      if Restores(a, s, r) {
        var k :| 0 <= k < |a| && a[k].shardId == s && a[k].instantiateReplicaId == r;
        assert (a + b)[k] == a[k];
      } else {
        var k :| 0 <= k < |b| && b[k].shardId == s && b[k].instantiateReplicaId == r;
        assert (a + b)[|a| + k] == b[k];
      }
    }
  }

  ghost predicate InRepair(list: seq<ShardRepair>, s: nat)
  {
    exists k :: 0 <= k < |list| && list[k].shardId == s
  }

  lemma InRepairGrows(was: seq<ShardRepair>, crl: seq<ShardRepair>)
    requires was <= crl
    ensures forall s :: InRepair(was, s) ==> InRepair(crl, s)
  {
    forall s | InRepair(was, s)
      ensures InRepair(crl, s)
    {
      var k :| 0 <= k < |was| && was[k].shardId == s;
      assert crl[k].shardId == s;
    }
  }

  lemma RestoreGrows(reqs: seq<Request>, more: seq<Request>, list: seq<ShardRepair>, k: nat)
    requires k < |list| && forall i, j :: 0 <= i < j < |list| ==> list[i].shardId != list[j].shardId
    requires forall q :: q in reqs ==> InRepair(list[..k], q.shardId)
    requires DistinctReplicas(reqs) && DistinctReplicas(more) && forall q :: q in more ==> q.shardId == list[k].shardId
    ensures DistinctReplicas(reqs + more)
    ensures forall q :: q in reqs + more ==> InRepair(list[..k + 1], q.shardId)
    ensures forall s, r :: Restores(reqs, s, r) || Restores(more, s, r) ==> Restores(reqs + more, s, r)
  {
    InRepairGrows(list[..k], list[..k + 1]);
    assert list[..k + 1][k] == list[k];
    forall i | 0 <= i < |reqs|
      ensures reqs[i].shardId != list[k].shardId
    {
      assert reqs[i] in reqs;
      var l :| 0 <= l < k && list[..k][l].shardId == reqs[i].shardId;
    }
    ConcatAt(reqs, more);
    RestoresJoin(reqs, more);
  }

  lemma RestorableMeans(ctx: Context, cc: ShardRepair, k: nat)
    requires WellKeyed(ctx) && Classified(ctx, cc) && k < |cc.failedReplicas|
    ensures var n := cc.failedReplicas[k];
            n.replicaId in RestorableIds(ctx, cc.shard) <==>
              (n.address in ctx.hosts && ctx.hosts[n.address].Available(ctx.tick)
               && ctx.hosts[n.address].HasLog(n.shardId, n.replicaId))
  {
    hide EntityFailed, OkIds, WaitingIds;
  }

  ghost function ListedIds(list: seq<Replica>): set<nat>
  {
    set n | n in list :: n.replicaId
  }

  lemma ListedIdsSnoc(list: seq<Replica>, k: nat)
    requires k < |list|
    ensures ListedIds(list[..k + 1]) == ListedIds(list[..k]) + {list[k].replicaId}
  {
    assert list[..k + 1] == list[..k] + [list[k]];
  }

  lemma NotYetListed(list: seq<Replica>, k: nat)
    requires k < |list| && forall i, j :: 0 <= i < j < |list| ==> list[i].replicaId != list[j].replicaId
    ensures list[k].replicaId !in ListedIds(list[..k])
  {}

  lemma RestoreScan(ctx: Context, cc: ShardRepair, k: nat, nl: seq<Replica>)
    requires WellKeyed(ctx) && Classified(ctx, cc) && k < |cc.failedReplicas|
    requires Lists(nl, cc.shard, RestorableIds(ctx, cc.shard) * ListedIds(cc.failedReplicas[..k]))
    ensures var n := cc.failedReplicas[k];
            var kept := n.address in ctx.hosts && ctx.hosts[n.address].Available(ctx.tick)
                        && ctx.hosts[n.address].HasLog(n.shardId, n.replicaId);
            Lists(if kept then nl + [n] else nl, cc.shard,
                  RestorableIds(ctx, cc.shard) * ListedIds(cc.failedReplicas[..k + 1]))
  {
    hide RestorableIds, FailedIds, OkIds, WaitingIds;
    var n := cc.failedReplicas[k];
    var was, now := ListedIds(cc.failedReplicas[..k]), ListedIds(cc.failedReplicas[..k + 1]);
    ListedIdsSnoc(cc.failedReplicas, k);
    NotYetListed(cc.failedReplicas, k);
    RestorableMeans(ctx, cc, k);
    if n.replicaId in RestorableIds(ctx, cc.shard) {
      ListsGrow(nl, cc.shard, RestorableIds(ctx, cc.shard) * was, n.replicaId);
      assert RestorableIds(ctx, cc.shard) * now == RestorableIds(ctx, cc.shard) * was + {n.replicaId};
    } else {
      assert RestorableIds(ctx, cc.shard) * now == RestorableIds(ctx, cc.shard) * was;
    }
  }

  lemma RestoreAllowed(ctx: Context, cc: ShardRepair, r: nat, q: Request)
    requires WellKeyed(ctx) && Classified(ctx, cc) && r in RestorableIds(ctx, cc.shard) && CreateOf(cc.shard, r, q)
    requires !q.join && q.restore && q.appName == AppName(ctx, cc.shardId)
    requires RestoreNeeded(cc.shard, ctx.tick) ==> Restorable(ctx, cc.shard)
    ensures MayRestore(ctx, q) && q.shardId == cc.shardId && q.instantiateReplicaId == r
  {
    hide EntityFailed, OkIds, WaitingIds, RestoreNeeded, Restorable;
  }

  lemma RestorableListed(ctx: Context, cc: ShardRepair, nl: seq<Replica>)
    requires WellKeyed(ctx) && Classified(ctx, cc) && Lists(nl, cc.shard, RestorableIds(ctx, cc.shard))
    ensures KeyedRecord(cc.shard)
    ensures forall k :: 0 <= k < |nl| ==>
              nl[k].replicaId in RestorableIds(ctx, cc.shard) && nl[k].replicaId in cc.shard.replicas
              && cc.shard.replicas[nl[k].replicaId] == nl[k]
  {
    hide CanRestore, FailedIds, OkIds, WaitingIds;
  }

  lemma RestorableAreFailed(ctx: Context, c: ShardRecord)
    ensures RestorableIds(ctx, c) * FailedIds(c, ctx.tick) == RestorableIds(ctx, c)
    ensures RestorableIds(ctx, c) != {} ==> FailedIds(c, ctx.tick) != {}
  {}

  lemma {:induction false} ListedSize(list: seq<Replica>)
    requires forall i, j :: 0 <= i < j < |list| ==> list[i].replicaId != list[j].replicaId
    ensures |ListedIds(list)| == |list|
  {
    if list != [] {
      var k := |list| - 1;
      ListedSize(list[..k]);
      ListedIdsSnoc(list, k);
      NotYetListed(list, k);
      assert list[..k + 1] == list;
    }
  }

  // A listing of a set lists all of it.
  lemma ListedAll(list: seq<Replica>, c: ShardRecord, ids: set<nat>)
    requires Lists(list, c, ids)
    ensures ListedIds(list) == ids
    ensures forall r :: r in ids ==> exists k :: 0 <= k < |list| && list[k].replicaId == r
  {
    ListedSize(list);
    SameSizeSubset(ListedIds(list), ids);
    forall r | r in ids
      ensures exists k :: 0 <= k < |list| && list[k].replicaId == r
    {
      var n :| n in list && n.replicaId == r;
    }
  }

  lemma FilteredSuitable(ctx: Context, s: nat, filters: seq<Filter>, v: HostSpec)
    requires |filters| >= 2 && filters[0] == Live(ctx.tick, NODE_HOST_TTL) && filters[1] == Basic(s)
    requires v.address in ctx.hosts && ctx.hosts[v.address] == v && KeptByAll(filters, v)
    ensures Suitable(ctx, s, v.address)
  {
    assert filters[0] in filters && filters[1] in filters;
    assert filters[0].Keeps(v) && filters[1].Keeps(v);
  }

  lemma KeptInRegion(ctx: Context, s: nat, region: string, v: HostSpec)
    requires v.address in ctx.hosts && ctx.hosts[v.address] == v
    requires KeptByAll([Live(ctx.tick, NODE_HOST_TTL), Basic(s), Region(region)], v)
    ensures ctx.hosts[v.address].region == region
  {
    assert Region(region) in [Live(ctx.tick, NODE_HOST_TTL), Basic(s), Region(region)];
    assert Region(region).Keeps(v);
  }

  lemma NoneInRegion(ctx: Context, s: nat, region: string, list: seq<HostSpec>)
    requires |Kept([Live(ctx.tick, NODE_HOST_TTL), Basic(s), Region(region)], list)| == 0
    requires WellKeyed(ctx) && forall v :: v in list <==> v.address in ctx.hosts && ctx.hosts[v.address] == v
    ensures forall a :: Suitable(ctx, s, a) ==> ctx.hosts[a].region != region
  {
    var filters := [Live(ctx.tick, NODE_HOST_TTL), Basic(s), Region(region)];
    KeptMembers(filters, list);
    forall a | Suitable(ctx, s, a)
      ensures ctx.hosts[a].region != region
    {
      if ctx.hosts[a].region == region {
        assert KeptByAll(filters, ctx.hosts[a]);
      }
    }
  }

  lemma NoneSuitable(ctx: Context, s: nat, list: seq<HostSpec>)
    requires |Kept([Live(ctx.tick, NODE_HOST_TTL), Basic(s)], list)| == 0
    requires WellKeyed(ctx) && forall v :: v in list <==> v.address in ctx.hosts && ctx.hosts[v.address] == v
    ensures forall a :: !Suitable(ctx, s, a)
  {
    var filters := [Live(ctx.tick, NODE_HOST_TTL), Basic(s)];
    KeptMembers(filters, list);
    forall a
      ensures !Suitable(ctx, s, a)
    {
      if Suitable(ctx, s, a) {
        assert KeptByAll(filters, ctx.hosts[a]);
      }
    }
  }

  // ----- looking up and classifying

  lemma {:induction false} DefIndexFound(shards: seq<ShardDef>, s: nat, k: nat)
    requires k < |shards| && shards[k].shardId == s
    ensures DefIndex(shards, s) < |shards|
  {
    if shards[0].shardId != s {
      DefIndexFound(shards[1..], s, k - 1);
    }
  }

  lemma HasDefinition(ctx: Context, s: nat)
    requires Defined(ctx) && s in ctx.image
    ensures DefIndex(ctx.shards, s) < |ctx.shards|
  {
    var k :| 0 <= k < |ctx.shards| && ctx.shards[k].shardId == s;
    DefIndexFound(ctx.shards, s, k);
  }

  lemma StuckNeedsRepair(ctx: Context, s: nat)
    ensures Stuck(ctx, s) ==> NeedsRepair(ctx, s)
    ensures NeedsRepair(ctx, s) ==>
              s in ctx.image && (FailedIds(ctx.image[s], ctx.tick) != {} || WaitingIds(ctx.image[s], ctx.tick) != {})
  {}

  lemma RepairGrows(reqs: seq<Request>, more: seq<Request>, list: seq<ShardRepair>, k: nat)
    requires k < |list| && forall i, j :: 0 <= i < j < |list| ==> list[i].shardId != list[j].shardId
    requires forall q :: q in reqs ==> InRepair(list[..k], q.shardId)
    requires DistinctShards(reqs) && |more| <= 1 && forall q :: q in more ==> q.shardId == list[k].shardId
    ensures DistinctShards(reqs + more)
    ensures forall q :: q in reqs + more ==> InRepair(list[..k + 1], q.shardId)
    ensures forall s :: Answers(reqs, s) ==> Answers(reqs + more, s)
    ensures |more| == 1 ==> Answers(reqs + more, list[k].shardId)
  {
    InRepairGrows(list[..k], list[..k + 1]);
    assert list[..k + 1][k] == list[k];
    forall i | 0 <= i < |reqs|
      ensures reqs[i].shardId != list[k].shardId
    {
      assert reqs[i] in reqs;
      var l :| 0 <= l < k && list[..k][l].shardId == reqs[i].shardId;
    }
    forall s | Answers(reqs, s)
      ensures Answers(reqs + more, s)
    {
      var i :| 0 <= i < |reqs| && reqs[i].shardId == s;
      assert (reqs + more)[i] == reqs[i];
    }
    if |more| == 1 {
      assert (reqs + more)[|reqs|] == more[0];
    }
  }

  method ToArray(hosts: Hosts) returns (result: seq<HostSpec>)
    requires forall a :: a in hosts ==> hosts[a].address == a
    ensures DistinctSpecs(result)
    ensures forall v :: v in result <==> v.address in hosts && hosts[v.address] == v
  {
    result := [];
    var names := hosts.Keys;
    while names != {}
      invariant names <= hosts.Keys && DistinctSpecs(result)
      invariant forall v :: v in result <==> v.address in hosts && hosts[v.address] == v && v.address !in names
      decreases names
    {
      var a :| a in names;
      result := result + [hosts[a]];
      names := names - {a};
    }
  }

  lemma ListsNone(list: seq<Replica>, c: ShardRecord, ids: set<nat>)
    requires Lists(list, c, ids)
    ensures |list| == 0 <==> ids == {}
  {}

  method GetShardForRepair(sc: Context) returns (crl: seq<ShardRepair>)
    requires WellKeyed(sc)
    ensures forall k :: 0 <= k < |crl| ==> Classified(sc, crl[k])
    ensures forall k, l :: 0 <= k < l < |crl| ==> crl[k].shardId != crl[l].shardId
    ensures forall s :: s in sc.image && (FailedIds(sc.image[s], sc.tick) != {} || WaitingIds(sc.image[s], sc.tick) != {}) ==>
              InRepair(crl, s)
    ensures forall k :: 0 <= k < |crl| ==> FailedIds(crl[k].shard, sc.tick) != {} || WaitingIds(crl[k].shard, sc.tick) != {}
  {
    hide FailedIds, OkIds, WaitingIds, Lists;
    crl := [];
    var ids := sc.image.Keys;
    while ids != {}
      invariant ids <= sc.image.Keys
      invariant forall k :: 0 <= k < |crl| ==> FailedIds(crl[k].shard, sc.tick) != {} || WaitingIds(crl[k].shard, sc.tick) != {}
      invariant forall k :: 0 <= k < |crl| ==> Classified(sc, crl[k]) && crl[k].shardId !in ids
      invariant forall k, l :: 0 <= k < l < |crl| ==> crl[k].shardId != crl[l].shardId
      invariant forall s :: s in sc.image && s !in ids ==>
                  (FailedIds(sc.image[s], sc.tick) != {} || WaitingIds(sc.image[s], sc.tick) != {} ==> InRepair(crl, s))
      decreases ids
    {
      var s :| s in ids;
      ids := ids - {s};
      var c := sc.image[s];
      var failedReplicas := GetFailedReplicas(c, sc.tick);
      var okReplicas := GetOkReplicas(c, sc.tick);
      var toStartReplicas := GetReplicasToStart(c, sc.tick);
      ListsNone(failedReplicas, c, FailedIds(c, sc.tick));
      ListsNone(toStartReplicas, c, WaitingIds(c, sc.tick));
      if |failedReplicas| == 0 && |toStartReplicas| == 0 {
        continue;
      }
      ghost var was := crl;
      crl := crl + [ShardRepair(c.shardId, c, failedReplicas, okReplicas, toStartReplicas)];
      InRepairGrows(was, crl);
      assert crl[|was|].shardId == s;
    }
  }

  // ----- the scheduler

  class Scheduler {
    var ctx: Context
    var shardsToRepair: seq<ShardRepair>
    var nodeHostList: seq<HostSpec>
    var replicasToKill: seq<ReplicaToKill>

    ghost predicate Ready()
      reads this
    {
      && WellKeyed(ctx) && Defined(ctx)
      && (forall k :: 0 <= k < |shardsToRepair| ==> Classified(ctx, shardsToRepair[k]))
      && (forall k, l :: 0 <= k < l < |shardsToRepair| ==> shardsToRepair[k].shardId != shardsToRepair[l].shardId)
      && (forall s :: s in ctx.image && (FailedIds(ctx.image[s], ctx.tick) != {} || WaitingIds(ctx.image[s], ctx.tick) != {}) ==>
            InRepair(shardsToRepair, s))
      && DistinctSpecs(nodeHostList)
      && (forall v :: v in nodeHostList <==> v.address in ctx.hosts && ctx.hosts[v.address] == v)
      && replicasToKill == ctx.kills
    }

    constructor ()
      ensures ctx == Context(0, [], [], map[], map[], []) && Ready()
    {
      ctx := Context(0, [], [], map[], map[], []);
      shardsToRepair, nodeHostList, replicasToKill := [], [], [];
    }

    // updateSchedulerContext
    method UpdateSchedulerContext(sc: Context)
      requires WellKeyed(sc) && Defined(sc)
      modifies this
      ensures Ready() && ctx == sc
    {
      ctx := sc;
      shardsToRepair := GetShardForRepair(sc);
      nodeHostList := ToArray(sc.hosts);
      replicasToKill := sc.kills;
    }

    // getShardSize and getAppName: the first definition with the id.
    method FindShard(shardId: nat) returns (k: nat)
      requires DefIndex(ctx.shards, shardId) < |ctx.shards|
      ensures k == DefIndex(ctx.shards, shardId)
    {
      k := 0;
      while ctx.shards[k].shardId != shardId
        invariant k <= DefIndex(ctx.shards, shardId)
        decreases |ctx.shards| - k
      {
        k := k + 1;
      }
    }

    // A host in the region of the failed replica's host, else any host.
    method GetReplacementNode(failedReplica: Replica) returns (selected: seq<HostSpec>)
      requires Ready()
      ensures |selected| <= 1
      ensures |selected| == 1 ==> selected[0].address in ctx.hosts && Suitable(ctx, failedReplica.shardId, selected[0].address)
      ensures |selected| == 1 ==> Near(ctx, failedReplica.shardId, failedReplica.address, selected[0].address)
      ensures |selected| == 0 ==> forall a :: !Suitable(ctx, failedReplica.shardId, a)
    {
      var region := if failedReplica.address in ctx.hosts then ctx.hosts[failedReplica.address].region else UNKNOWN_REGION;
      var live, basic := Live(ctx.tick, NODE_HOST_TTL), Basic(failedReplica.shardId);
      selected := FindSuitableNodeHost([live, basic, Region(region)], nodeHostList, 1);
      if |selected| == 1 {
        FilteredSuitable(ctx, failedReplica.shardId, [live, basic, Region(region)], selected[0]);
        KeptInRegion(ctx, failedReplica.shardId, region, selected[0]);
        return;
      }
      NoneInRegion(ctx, failedReplica.shardId, region, nodeHostList);
      selected := FindSuitableNodeHost([live, basic], nodeHostList, 1);
      if |selected| == 1 {
        FilteredSuitable(ctx, failedReplica.shardId, [live, basic], selected[0]);
      } else {
        NoneSuitable(ctx, failedReplica.shardId, nodeHostList);
      }
    }

    // The request for adding a replica in place of a failed one, if a host is found for it.
    method GetRepairAddRequest(failedReplica: Replica, cc: ShardRepair) returns (reqs: seq<Request>)
      requires Ready() && Classified(ctx, cc) && AddNeeded(cc.shard, ctx.tick)
      requires !DeleteNeeded(cc.shard, ctx.tick, ExpectedSize(ctx, cc.shardId))
      requires failedReplica.shardId == cc.shardId && failedReplica in cc.failedReplicas
      requires !CreateNeeded(cc.shard, ctx.tick)
      ensures |reqs| <= 1
      ensures forall q :: q in reqs ==> q.shardId == cc.shardId && MayRepair(ctx, q) && q.kind == ADD
      ensures reqs == [] <==> forall a :: !Suitable(ctx, cc.shardId, a)
    {
      ClassifiedMeans(ctx, cc);
      var selected := GetReplacementNode(failedReplica);
      if |selected| != 1 {
        return [];
      }
      var pick: nat :| pick < |cc.okReplicas|;
      var newReplicaId: nat := *;
      reqs := [Request(ADD, cc.shardId, [newReplicaId], cc.shard.index, cc.okReplicas[pick].address,
                       [], [selected[0].address], 0, false, false, "")];
      assert cc.okReplicas[pick].replicaId in OkIds(cc.shard, ctx.tick);
      assert failedReplica.replicaId in FailedIds(cc.shard, ctx.tick);
    }

    method GetRepairDeleteRequest(toDelete: Replica, cc: ShardRepair) returns (reqs: seq<Request>)
      requires Ready() && Classified(ctx, cc) && DeleteNeeded(cc.shard, ctx.tick, ExpectedSize(ctx, cc.shardId))
      requires toDelete in cc.failedReplicas
      ensures |reqs| == 1 && reqs[0].shardId == cc.shardId && MayRepair(ctx, reqs[0])
    {
      ClassifiedMeans(ctx, cc);
      var pick: nat :| pick < |cc.okReplicas|;
      reqs := [Request(DELETE, cc.shardId, [toDelete.replicaId], cc.shard.index, cc.okReplicas[pick].address,
                       [], [], 0, false, false, "")];
      assert cc.okReplicas[pick].replicaId in OkIds(cc.shard, ctx.tick);
    }

    method GetCreateRequest(newReplica: Replica, c: ShardRecord, appName: string, join: bool, restore: bool)
      returns (reqs: seq<Request>)
      requires KeyedRecord(c) && newReplica.replicaId in c.replicas && c.replicas[newReplica.replicaId] == newReplica
      ensures |reqs| == 1 && CreateOf(c, newReplica.replicaId, reqs[0])
      ensures reqs[0].join == join && reqs[0].restore == restore && reqs[0].appName == appName
    {
      var replicaIdList, addressList := [], [];
      var ids := c.replicas.Keys;
      while ids != {}
        invariant ids <= c.replicas.Keys
        invariant |replicaIdList| == |addressList| == |c.replicas.Keys| - |ids|
        invariant forall k :: 0 <= k < |replicaIdList| ==>
          replicaIdList[k] in c.replicas && addressList[k] == c.replicas[replicaIdList[k]].address
        invariant forall x :: x in c.replicas && x !in ids ==> x in replicaIdList
        decreases ids
      {
        var r :| r in ids;
        replicaIdList := replicaIdList + [c.replicas[r].replicaId];
        addressList := addressList + [c.replicas[r].address];
        ids := ids - {r};
      }
      reqs := [Request(CREATE, c.shardId, replicaIdList, 0, newReplica.address, replicaIdList, addressList,
                       newReplica.replicaId, join, restore, appName)];
    }

    // getRepairCreateRequest
    method GetRepairCreateRequest(newReplica: Replica, cc: ShardRepair, appName: string) returns (reqs: seq<Request>)
      requires Ready() && Classified(ctx, cc) && newReplica in cc.replicasToStart
      requires !DeleteNeeded(cc.shard, ctx.tick, ExpectedSize(ctx, cc.shardId)) && appName == AppName(ctx, cc.shardId)
      ensures |reqs| == 1 && reqs[0].shardId == cc.shardId && MayRepair(ctx, reqs[0]) && reqs[0].kind == CREATE
    {
      reqs := GetCreateRequest(newReplica, cc.shard, appName, true, false);
      hide EntityFailed, OkIds, FailedIds, Quorum;
      assert newReplica.replicaId in WaitingIds(cc.shard, ctx.tick);
    }

    // The three-way choice for one shard.
    method RepairShard(cc: ShardRepair) returns (reqs: seq<Request>, bad: bool)
      requires Ready() && Classified(ctx, cc)
      ensures |reqs| <= 1
      ensures forall q :: q in reqs ==> q.shardId == cc.shardId && MayRepair(ctx, q)
      ensures !bad && NeedsRepair(ctx, cc.shardId) ==> |reqs| == 1
      ensures bad <==> Stuck(ctx, cc.shardId)
    {
      hide MayRepair, Suitable, WellKeyed, Defined, DeleteNeeded, CreateNeeded, AddNeeded, Available, Quorum, OkIds, FailedIds,
        WaitingIds, Classified, Lists, RestoreNeeded;
      ClassifiedMeans(ctx, cc);
      InImage(ctx, cc);
      HasDefinition(ctx, cc.shardId);
      FailedOfShard(ctx, cc);
      hide Ready;
      var def := FindShard(cc.shardId);
      var expectedShardSize := |ctx.shards[def].members|;
      assert expectedShardSize == ExpectedSize(ctx, cc.shardId);
      hide ExpectedSize;
      bad := false;
      reqs := [];
      if cc.DeleteRequired(expectedShardSize) {
        reqs := GetRepairDeleteRequest(cc.failedReplicas[0], cc);
      } else if cc.CreateRequired() {
        reqs := GetRepairCreateRequest(cc.replicasToStart[0], cc, ctx.shards[def].appName);
      } else if cc.AddRequired() {
        reqs := GetRepairAddRequest(cc.failedReplicas[0], cc);
        bad := reqs == [];
      }
    }

    // repair: at most one request per shard that is not being restored, and one for each that
    // needs it; an error exactly when one of them is stuck.
    method Repair(restored: set<nat>) returns (result: Requests)
      requires Ready()
      ensures result.Requests? ==> forall q :: q in result.reqs ==> MayRepair(ctx, q) && q.shardId !in restored
      ensures result.Requests? ==> DistinctShards(result.reqs)
      ensures result.Requests? ==> forall s :: NeedsRepair(ctx, s) && s !in restored ==> Answers(result.reqs, s)
      ensures result.NotEnoughNodeHost? <==> exists s :: Stuck(ctx, s) && s !in restored
    {
      hide MayRepair, Suitable, Classified, WellKeyed, Defined, Answers, NeedsRepair, Stuck, FailedIds, WaitingIds;
      var reqs: seq<Request> := [];
      for k := 0 to |shardsToRepair|
        invariant forall q :: q in reqs ==> MayRepair(ctx, q) && q.shardId !in restored
        invariant forall q :: q in reqs ==> InRepair(shardsToRepair[..k], q.shardId)
        invariant DistinctShards(reqs)
        invariant forall l :: 0 <= l < k ==>
          (shardsToRepair[l].shardId !in restored ==> !Stuck(ctx, shardsToRepair[l].shardId))
        invariant forall l :: 0 <= l < k ==>
          (NeedsRepair(ctx, shardsToRepair[l].shardId) && shardsToRepair[l].shardId !in restored ==>
             Answers(reqs, shardsToRepair[l].shardId))
      {
        var cc := shardsToRepair[k];
        var more := [];
        if cc.shardId !in restored {
          var bad;
          more, bad := RepairShard(cc);
          if bad {
            return NotEnoughNodeHost;
          }
        }
        RepairGrows(reqs, more, shardsToRepair, k);
        reqs := reqs + more;
      }
      assert shardsToRepair[..|shardsToRepair|] == shardsToRepair;
      forall s | (NeedsRepair(ctx, s) || Stuck(ctx, s)) && s !in restored
        ensures Answers(reqs, s) && !Stuck(ctx, s)
      {
        StuckNeedsRepair(ctx, s);
        assert InRepair(shardsToRepair, s);
      }
      return Requests(reqs);
    }

    // canBeRestored: the failed replicas whose host is up and has their log.
    method CanBeRestored(cc: ShardRepair) returns (nl: seq<Replica>)
      requires Ready() && Classified(ctx, cc)
      ensures Lists(nl, cc.shard, RestorableIds(ctx, cc.shard)) && |nl| == |RestorableIds(ctx, cc.shard)|
    {
      hide EntityFailed, RestorableIds;
      nl := [];
      ghost var done: set<nat> := {};
      assert ListedIds(cc.failedReplicas[..0]) == {};
      for k := 0 to |cc.failedReplicas|
        invariant done == ListedIds(cc.failedReplicas[..k])
        invariant Lists(nl, cc.shard, RestorableIds(ctx, cc.shard) * done)
      {
        var n := cc.failedReplicas[k];
        RestoreScan(ctx, cc, k, nl);
        done := ListedIds(cc.failedReplicas[..k + 1]);
        if n.address in ctx.hosts && ctx.hosts[n.address].Available(ctx.tick)
           && ctx.hosts[n.address].HasLog(n.shardId, n.replicaId) {
          nl := nl + [n];
        }
      }
      assert cc.failedReplicas[..|cc.failedReplicas|] == cc.failedReplicas;
      ListedAll(cc.failedReplicas, cc.shard, FailedIds(cc.shard, ctx.tick));
      RestorableAreFailed(ctx, cc.shard);
    }

    // The CREATEs that bring back the replicas in nl.
    method RestoreReplicas(cc: ShardRepair, nl: seq<Replica>) returns (reqs: seq<Request>)
      requires Ready() && Classified(ctx, cc)
      requires Lists(nl, cc.shard, RestorableIds(ctx, cc.shard))
      requires RestoreNeeded(cc.shard, ctx.tick) ==> Restorable(ctx, cc.shard)
      ensures forall q :: q in reqs ==> q.shardId == cc.shardId && MayRestore(ctx, q)
      ensures DistinctReplicas(reqs)
      ensures forall r :: r in RestorableIds(ctx, cc.shard) ==> Restores(reqs, cc.shardId, r)
    {
      hide EntityFailed, OkIds, WaitingIds, MayRestore, CreateOf, RestorableIds, RestoreNeeded, Restorable;
      HasDefinition(ctx, cc.shardId);
      var def := FindShard(cc.shardId);
      assert AppName(ctx, cc.shardId) == ctx.shards[def].appName;
      hide Ready, AppName, WellKeyed, Classified, Lists, KeyedRecord;
      RestorableListed(ctx, cc, nl);
      reqs := [];
      for k := 0 to |nl|
        invariant |reqs| == k && forall l :: 0 <= l < k ==>
          reqs[l].shardId == cc.shardId && reqs[l].instantiateReplicaId == nl[l].replicaId && MayRestore(ctx, reqs[l])
      {
        var more := GetCreateRequest(nl[k], cc.shard, ctx.shards[def].appName, false, true);
        RestoreAllowed(ctx, cc, nl[k].replicaId, more[0]);
        reqs := reqs + more;
      }
      ListedAll(nl, cc.shard, RestorableIds(ctx, cc.shard));
      forall r | r in RestorableIds(ctx, cc.shard)
        ensures Restores(reqs, cc.shardId, r)
      {
        var k :| 0 <= k < |nl| && nl[k].replicaId == r;
        assert reqs[k].instantiateReplicaId == r;
      }
    }

    // restoreUnavailableShards: only when enough replicas can come back for a quorum.
    method RestoreUnavailableShards() returns (result: seq<Request>, idMap: set<nat>)
      requires Ready()
      ensures forall q :: q in result ==>
          MayRestore(ctx, q) && q.shardId in ctx.image && RestoreNeeded(ctx.image[q.shardId], ctx.tick)
      ensures DistinctReplicas(result)
      ensures forall s :: s in idMap ==> s in ctx.image && RestoreNeeded(ctx.image[s], ctx.tick)
      ensures forall s, r :: s in ctx.image && r in RestorableIds(ctx, ctx.image[s]) ==>
                (RestoreNeeded(ctx.image[s], ctx.tick) && Restorable(ctx, ctx.image[s]) ==> Restores(result, s, r))
    {
      hide MayRestore, CanRestore, RestorableIds, RestoreNeeded, FailedIds, OkIds, WaitingIds, WellKeyed, Lists, Quorum;
      result, idMap := [], {};
      for k := 0 to |shardsToRepair|
        invariant forall q :: q in result ==>
          MayRestore(ctx, q) && q.shardId in ctx.image && RestoreNeeded(ctx.image[q.shardId], ctx.tick)
        invariant forall q :: q in result ==> InRepair(shardsToRepair[..k], q.shardId)
        invariant DistinctReplicas(result)
        invariant forall s :: s in idMap ==> s in ctx.image && RestoreNeeded(ctx.image[s], ctx.tick)
        invariant forall l, r :: 0 <= l < k && r in RestorableIds(ctx, shardsToRepair[l].shard) ==>
          (RestoreNeeded(shardsToRepair[l].shard, ctx.tick) && Restorable(ctx, shardsToRepair[l].shard) ==>
             Restores(result, shardsToRepair[l].shardId, r))
      {
        var cc := shardsToRepair[k];
        ClassifiedMeans(ctx, cc);
        var more := [];
        if cc.NeedToBeRestored() {
          var replicasToRestore := CanBeRestored(cc);
          if |cc.okReplicas| + |replicasToRestore| >= cc.QuorumSize() {
            more := RestoreReplicas(cc, replicasToRestore);
            if |replicasToRestore| > 0 {
              idMap := idMap + {cc.shardId};
            }
          }
        }
        RestoreGrows(result, more, shardsToRepair, k);
        result := result + more;
      }
      assert shardsToRepair[..|shardsToRepair|] == shardsToRepair;
      forall s, r | s in ctx.image && r in RestorableIds(ctx, ctx.image[s])
                    && RestoreNeeded(ctx.image[s], ctx.tick) && Restorable(ctx, ctx.image[s])
        ensures Restores(result, s, r)
      {
        RestorableAreFailed(ctx, ctx.image[s]);
        assert InRepair(shardsToRepair, s);
      }
    }

    // restoreFailed: the failed replicas of the other shards, wherever they can come back.
    method RestoreFailed(done: set<nat>) returns (result: seq<Request>)
      requires Ready()
      requires forall s :: s in done ==> s in ctx.image && RestoreNeeded(ctx.image[s], ctx.tick)
      ensures forall q :: q in result ==>
          MayRestore(ctx, q) && q.shardId in ctx.image && !RestoreNeeded(ctx.image[q.shardId], ctx.tick)
      ensures DistinctReplicas(result)
      ensures forall s, r :: s in ctx.image && r in RestorableIds(ctx, ctx.image[s]) ==>
                (!RestoreNeeded(ctx.image[s], ctx.tick) ==> Restores(result, s, r))
    {
      hide MayRestore, CanRestore, RestorableIds, RestoreNeeded, Restorable, FailedIds, OkIds, WaitingIds, WellKeyed, Lists;
      result := [];
      for k := 0 to |shardsToRepair|
        invariant forall q :: q in result ==>
          MayRestore(ctx, q) && q.shardId in ctx.image && !RestoreNeeded(ctx.image[q.shardId], ctx.tick)
        invariant forall q :: q in result ==> InRepair(shardsToRepair[..k], q.shardId)
        invariant DistinctReplicas(result)
        invariant forall l, r :: 0 <= l < k && r in RestorableIds(ctx, shardsToRepair[l].shard) ==>
          (!RestoreNeeded(shardsToRepair[l].shard, ctx.tick) ==> Restores(result, shardsToRepair[l].shardId, r))
      {
        var cc := shardsToRepair[k];
        ClassifiedMeans(ctx, cc);
        var more := [];
        if !(cc.NeedToBeRestored() || cc.shardId in done) {
          var replicasToRestore := CanBeRestored(cc);
          more := RestoreReplicas(cc, replicasToRestore);
        }
        RestoreGrows(result, more, shardsToRepair, k);
        result := result + more;
      }
      assert shardsToRepair[..|shardsToRepair|] == shardsToRepair;
      forall s, r | s in ctx.image && r in RestorableIds(ctx, ctx.image[s]) && !RestoreNeeded(ctx.image[s], ctx.tick)
        ensures Restores(result, s, r)
      {
        RestorableAreFailed(ctx, ctx.image[s]);
        assert InRepair(shardsToRepair, s);
      }
    }

    // restore: exactly the failed replicas that can come back, except in a shard that would stay
    // unavailable all the same.
    method Restore() returns (reqs: seq<Request>)
      requires Ready()
      ensures forall q :: q in reqs ==> MayRestore(ctx, q)
      ensures DistinctReplicas(reqs)
      ensures forall s, r :: RestoreCalledFor(ctx, s, r) ==> Restores(reqs, s, r)
    {
      var ureqs, done := RestoreUnavailableShards();
      var freqs := RestoreFailed(done);
      reqs := ureqs + freqs;
      ConcatAt(ureqs, freqs);
      RestoresJoin(ureqs, freqs);
    }

    // The hosts of one region for one shard.
    method RegionReplicas(s: nat, region: (string, nat)) returns (selected: seq<HostSpec>)
      requires Ready()
      ensures |selected| == Drawn(ctx, s, region) && DistinctSpecs(selected)
      ensures forall v :: v in selected ==>
                v.address in ctx.hosts && ctx.hosts[v.address] == v && LaunchHost(ctx, s, region.0, v.address)
    {
      hide LaunchHost, KeptByAll, Kept, Classified;
      var filters := [Live(ctx.tick, NODE_HOST_TTL), Basic(s), Region(region.0)];
      selected := FindSuitableNodeHost(filters, nodeHostList, region.1);
      PassingCount(ctx, s, region.0, nodeHostList);
      forall v | v in selected
        ensures v.address in ctx.hosts && ctx.hosts[v.address] == v && LaunchHost(ctx, s, region.0, v.address)
      {
        assert v in nodeHostList;
        RegionFilters(ctx, s, region.0, v);
      }
    }

    // The hosts of all regions for one shard, in the order of the regions.
    method SelectHosts(s: nat) returns (selected: seq<HostSpec>)
      requires Ready()
      ensures SelectedFrom(ctx, s, |ctx.regions|, selected)
    {
      hide Ready, SelectedFrom, LaunchHost, Drawn, DistinctSpecs;
      selected := [];
      NothingSelected(ctx, s);
      for idx := 0 to |ctx.regions|
        invariant SelectedFrom(ctx, s, idx, selected)
      {
        var regionReplicas := RegionReplicas(s, ctx.regions[idx]);
        SelectNext(ctx, s, idx, selected, regionReplicas);
        selected := selected + regionReplicas;
      }
    }

    // getLaunchRequests for one shard. The original indexes the members by host, so more hosts
    // than members is a crash; fewer is an error.
    method LaunchShard(shard: ShardDef) returns (outcome: LaunchOutcome)
      requires Ready()
      ensures outcome.Launched? <==> Surplus(ctx, shard) == 0
      ensures outcome.LaunchError? <==> Surplus(ctx, shard) < 0
      ensures outcome.LaunchPanic? <==> Surplus(ctx, shard) > 0
      ensures outcome.Launched? ==> LaunchOf(ctx, shard, outcome.reqs)
    {
      hide Ready, DistinctRegions, InRegions, LaunchHost, DrawnFrom, ByRegion;
      var selected := SelectHosts(shard.shardId);
      assert ctx.regions[..|ctx.regions|] == ctx.regions;
      if |selected| < |shard.members| {
        return LaunchError;
      }
      if |selected| > |shard.members| {
        return LaunchPanic;
      }
      var addressList: seq<string> := [];
      for idx := 0 to |shard.members|
        invariant |addressList| == idx && forall k :: 0 <= k < idx ==> addressList[k] == selected[k].address
      {
        addressList := addressList + [selected[idx].address];
      }
      assert addressList == AddressesOf(selected);
      var result: seq<Request> := [];
      for idx := 0 to |selected|
        invariant |result| == idx
        invariant forall k :: 0 <= k < idx ==> Launches(shard, addressList, k, result[k])
      {
        result := result + [Request(CREATE, shard.shardId, shard.members, 0, selected[idx].address, shard.members, addressList,
                                    shard.members[idx], false, false, shard.appName)];
      }
      assert forall k :: 0 <= k < |addressList| ==> selected[k] in selected;
      assert LaunchAddresses(ctx, shard, addressList);
      return Launched(result);
    }

    // The first shard for which the regions give too few hosts, or too many, decides.
    method GetLaunchRequests() returns (outcome: LaunchOutcome, ghost plans: seq<seq<Request>>)
      requires Ready()
      ensures outcome.Launched? <==> forall k: nat :: !FirstOff(ctx, k)
      ensures outcome.LaunchError? <==> exists k: nat :: FirstOff(ctx, k) && Surplus(ctx, ctx.shards[k]) < 0
      ensures outcome.LaunchPanic? <==> exists k: nat :: FirstOff(ctx, k) && Surplus(ctx, ctx.shards[k]) > 0
      ensures outcome.Launched? ==> PlansFor(ctx, plans) && outcome.reqs == Flatten(plans)
      ensures outcome.Launched? ==> exists p :: PlansFor(ctx, p) && outcome.reqs == Flatten(p)
    {
      hide Surplus, LaunchOf;
      var result: seq<Request> := [];
      plans := [];
      for k := 0 to |ctx.shards|
        invariant |plans| == k && result == Flatten(plans)
        invariant forall l :: 0 <= l < k ==> Surplus(ctx, ctx.shards[l]) == 0
        invariant forall l :: 0 <= l < k ==> LaunchOf(ctx, ctx.shards[l], plans[l])
      {
        outcome := LaunchShard(ctx.shards[k]);
        if !outcome.Launched? {
          assert FirstOff(ctx, k);
          return;
        }
        assert (plans + [outcome.reqs])[..k] == plans;
        result := result + outcome.reqs;
        plans := plans + [outcome.reqs];
      }
      outcome := Launched(result);
      assert PlansFor(ctx, plans) && outcome.reqs == Flatten(plans);
    }

    // killZombieReplicas
    method KillZombieReplicas() returns (results: seq<Request>)
      requires Ready()
      ensures forall q :: q in results ==> MayKill(ctx, q)
      ensures forall k :: k in ctx.kills ==> KillRequest(k) in results
    {
      results := [];
      for i := 0 to |replicasToKill|
        invariant |results| == i && forall l :: 0 <= l < i ==> results[l] == KillRequest(ctx.kills[l])
      {
        results := results + [KillRequest(replicasToKill[i])];
      }
      forall k | k in ctx.kills
        ensures KillRequest(k) in results
      {
        var i :| 0 <= i < |ctx.kills| && ctx.kills[i] == k;
        assert results[i] == KillRequest(k);
      }
    }

    // maintainShards: restore, then repair what is not being restored, then kill.
    method MaintainShards() returns (result: Requests)
      requires Ready()
      ensures Maintained(ctx, result)
    {
      hide MayRestore, MayRepair, MayKill, Stuck, NeedsRepair, RestorableIds, RestoreNeeded, Restorable, Answers, Restores,
        WellKeyed, Defined, Classified, BeingRestored;
      var restoreReqs := Restore();
      var restoredShards: set<nat> := {};
      for k := 0 to |restoreReqs|
        invariant forall s :: s in restoredShards <==> exists l :: 0 <= l < k && restoreReqs[l].shardId == s
      {
        restoredShards := restoredShards + {restoreReqs[k].shardId};
      }
      forall s
        ensures s in restoredShards <==> BeingRestored(ctx, s)
      {
        RestoredShards(ctx, restoreReqs, s);
        if s in restoredShards {
          var l :| 0 <= l < |restoreReqs| && restoreReqs[l].shardId == s;
          assert restoreReqs[l] in restoreReqs;
        }
      }
      var repaired := Repair(restoredShards);
      if repaired.NotEnoughNodeHost? {
        return NotEnoughNodeHost;
      }
      var kills := KillZombieReplicas();
      result := Requests(restoreReqs + repaired.reqs + kills);
      forall q | q in repaired.reqs
        ensures q.kind != KILL && q.shardId !in restoredShards
      {
        RepairIsNoKill(ctx, q);
      }
      RoundMaintains(ctx, restoreReqs, repaired.reqs, kills);
      CoherentRound(ctx, restoreReqs, repaired.reqs, kills);
    }
  }
}
