// Drummer's view of the node hosts (nodehostimage.go), and the filters and the selector that
// choose among them (filter.go, selector.go).
module HostImage {
  import opened ShardImage

  datatype HostSpec = HostSpec(address: string, rpcAddress: string, region: string, tick: nat,
                               persistentLog: seq<(nat, nat)>, shards: set<nat>)
  {
    predicate Available(currentTick: nat)
    {
      !EntityFailed(tick, currentTick)
    }

    predicate HasLog(shardId: nat, replicaId: nat)
    {
      (shardId, replicaId) in persistentLog
    }
  }

  type Hosts = map<string, HostSpec>

  // What a host reports. lastTick is stamped by the database.
  datatype NodeHostInfo = NodeHostInfo(raftAddress: string, rpcAddress: string, region: string, lastTick: nat,
                                       shardInfo: seq<ShardInfo>, shardIdList: seq<nat>,
                                       plogInfoIncluded: bool, plogInfo: seq<(nat, nat)>)

  function IdSet(ids: seq<nat>): set<nat>
  {
    set s | s in ids
  }

  // update: the entry of the reporting host. Without log information an old entry keeps its log.
  function HostReported(hosts: Hosts, nhi: NodeHostInfo): Hosts
  {
    var a := nhi.raftAddress;
    var log := if nhi.plogInfoIncluded then nhi.plogInfo else if a in hosts then hosts[a].persistentLog else [];
    hosts[a := if a in hosts
               then hosts[a].(region := nhi.region, tick := nhi.lastTick, persistentLog := log, shards := IdSet(nhi.shardIdList))
               else HostSpec(a, nhi.rpcAddress, nhi.region, nhi.lastTick, log, IdSet(nhi.shardIdList))]
  }

  // The shards with an imaged replica at address a.
  function ShardsAt(image: Image, a: string): set<nat>
  {
    set s | s in image && exists r :: r in image[s].replicas && image[s].replicas[r].address == a
  }

  // syncShardInfo
  function HostsSynced(hosts: Hosts, image: Image): Hosts
  {
    map a | a in hosts :: hosts[a].(shards := hosts[a].shards + ShardsAt(image, a))
  }

  // Listing shard cid at the addresses of the replicas in `done`.
  ghost function OneShardSynced(hosts: Hosts, cid: nat, replicas: map<nat, Replica>, done: set<nat>): Hosts
    requires done <= replicas.Keys
  {
    map a | a in hosts :: hosts[a].(shards :=
      hosts[a].shards + (if exists r :: r in done && replicas[r].address == a then {cid} else {}))
  }

  lemma OneMoreReplica(hosts: Hosts, cid: nat, replicas: map<nat, Replica>, done: set<nat>, r: nat)
    requires done <= replicas.Keys && r in replicas
    ensures var before, a := OneShardSynced(hosts, cid, replicas, done), replicas[r].address;
            OneShardSynced(hosts, cid, replicas, done + {r})
            == if a in before then before[a := before[a].(shards := before[a].shards + {cid})] else before
  {
    var before, after := OneShardSynced(hosts, cid, replicas, done), OneShardSynced(hosts, cid, replicas, done + {r});
    forall a | a in hosts
      ensures after[a].shards == before[a].shards + if a == replicas[r].address then {cid} else {}
    {
    }
  }

  lemma NothingSynced(hosts: Hosts, cid: nat, replicas: map<nat, Replica>)
    ensures OneShardSynced(hosts, cid, replicas, {}) == hosts
  {
    forall a | a in hosts
      ensures OneShardSynced(hosts, cid, replicas, {})[a] == hosts[a]
    {
      assert hosts[a].shards + {} == hosts[a].shards;
    }
  }

  ghost function SyncedUpTo(hosts: Hosts, image: Image, done: set<nat>): Hosts
  {
    map a | a in hosts :: hosts[a].(shards := hosts[a].shards + (ShardsAt(image, a) * done))
  }

  lemma OneMoreShard(image: Image, a: string, done: set<nat>, cid: nat)
    requires cid in image
    ensures ShardsAt(image, a) * (done + {cid})
            == ShardsAt(image, a) * done
               + if exists r :: r in image[cid].replicas.Keys && image[cid].replicas[r].address == a then {cid} else {}
  {}

  lemma SyncedUpToStep(hosts: Hosts, image: Image, done: set<nat>, cid: nat)
    requires cid in image
    ensures OneShardSynced(SyncedUpTo(hosts, image, done), cid, image[cid].replicas, image[cid].replicas.Keys)
            == SyncedUpTo(hosts, image, done + {cid})
  {
    hide ShardsAt;
    var one := OneShardSynced(SyncedUpTo(hosts, image, done), cid, image[cid].replicas, image[cid].replicas.Keys);
    forall a | a in hosts
      ensures one[a] == SyncedUpTo(hosts, image, done + {cid})[a]
    {
      OneMoreShard(image, a, done, cid);
      assert one[a].shards == SyncedUpTo(hosts, image, done + {cid})[a].shards;
    }
  }

  lemma SyncedAll(hosts: Hosts, image: Image)
    ensures SyncedUpTo(hosts, image, image.Keys) == HostsSynced(hosts, image)
    ensures SyncedUpTo(hosts, image, {}) == hosts
  {
    forall a: string
      ensures ShardsAt(image, a) * image.Keys == ShardsAt(image, a)
    {
    }
    hide ShardsAt;
    forall a | a in hosts
      ensures hosts[a].shards + (ShardsAt(image, a) * {}) == hosts[a].shards
    {
    }
  }

  class MultiNodeHost {
    var nodehosts: Hosts

    constructor ()
      ensures nodehosts == map[]
    {
      nodehosts := map[];
    }

    static method CollectIds(ids: seq<nat>) returns (cm: set<nat>)
      ensures cm == IdSet(ids)
    {
      cm := {};
      for k := 0 to |ids|
        invariant cm == IdSet(ids[..k])
      {
        assert ids[..k + 1] == ids[..k] + [ids[k]];
        cm := cm + {ids[k]};
      }
      assert ids[..|ids|] == ids;
    }

    method SyncNodeHostSpec(nhi: NodeHostInfo)
      requires nhi.raftAddress in nodehosts
      modifies this
      ensures nodehosts == HostReported(old(nodehosts), nhi)
    {
      var spec := nodehosts[nhi.raftAddress].(region := nhi.region, tick := nhi.lastTick);
      if nhi.plogInfoIncluded {
        spec := spec.(persistentLog := nhi.plogInfo);
      }
      var cm := CollectIds(nhi.shardIdList);
      nodehosts := nodehosts[nhi.raftAddress := spec.(shards := cm)];
    }

    method Update(nhi: NodeHostInfo)
      modifies this
      ensures nodehosts == HostReported(old(nodehosts), nhi)
    {
      if nhi.raftAddress in nodehosts {
        SyncNodeHostSpec(nhi);
      } else {
        var n := HostSpec(nhi.raftAddress, nhi.rpcAddress, nhi.region, nhi.lastTick, [], {});
        if nhi.plogInfoIncluded {
          n := n.(persistentLog := n.persistentLog + nhi.plogInfo);
          assert n.persistentLog == nhi.plogInfo;
        }
        var ids := CollectIds(nhi.shardIdList);
        nodehosts := nodehosts[nhi.raftAddress := n.(shards := ids)];
      }
    }

    method SyncShard(cid: nat, replicas: map<nat, Replica>)
      modifies this
      ensures nodehosts == OneShardSynced(old(nodehosts), cid, replicas, replicas.Keys)
    {
      hide OneShardSynced;
      ghost var was := nodehosts;
      var ids := replicas.Keys;
      NothingSynced(was, cid, replicas);
      assert replicas.Keys - ids == {};
      while ids != {}
        invariant ids <= replicas.Keys
        invariant nodehosts == OneShardSynced(was, cid, replicas, replicas.Keys - ids)
        decreases ids
      {
        var r :| r in ids;
        var address := replicas[r].address;
        ghost var done := replicas.Keys - ids;
        if address in nodehosts {
          nodehosts := nodehosts[address := nodehosts[address].(shards := nodehosts[address].shards + {cid})];
        }
        ids := ids - {r};
        assert replicas.Keys - ids == done + {r};
        OneMoreReplica(was, cid, replicas, done, r);
      }
      assert replicas.Keys - ids == replicas.Keys;
    }

    // Every known host is listed with the shards that have a replica at its address.
    method SyncShardInfo(image: Image)
      modifies this
      ensures nodehosts == HostsSynced(old(nodehosts), image)
    {
      ghost var was := nodehosts;
      SyncedAll(was, image);
      var cids := image.Keys;
      assert image.Keys - cids == {};
      while cids != {}
        invariant cids <= image.Keys
        invariant nodehosts == SyncedUpTo(was, image, image.Keys - cids)
        decreases cids
      {
        var cid :| cid in cids;
        SyncShard(cid, image[cid].replicas);
        ghost var done := image.Keys - cids;
        cids := cids - {cid};
        assert image.Keys - cids == done + {cid};
        SyncedUpToStep(was, image, done, cid);
      }
      assert image.Keys - cids == image.Keys;
    }
  }
}
