// The ground truth the repair protocol works against: each shard's history of memberships as its
// Raft log fixes it, and what it means for images, replicas and requests to agree with it.
module Truth {
  import opened ShardImage
  import opened Scheduler

  // The membership from log index `index` on: replica id to host address.
  datatype Config = Config(index: nat, members: map<nat, string>)

  type ShardHistory = seq<Config>

  type Histories = map<nat, ShardHistory>

  ghost function Size(h: ShardHistory): nat
    requires h != []
  {
    |h[0].members|
  }

  // The shard is never smaller than at its launch, and on different hosts.
  ghost predicate ConfigOk(h: ShardHistory, k: nat)
    requires k < |h|
  {
    && h[k].index > 0 && h[k].members != map[]
    && Size(h) <= |h[k].members|
    && DistinctAddresses(h[k].members)
  }

  ghost predicate Increasing(h: ShardHistory)
  {
    forall k, l :: 0 <= k < l < |h| ==> h[k].index < h[l].index
  }

  // A replica keeps its address.
  ghost predicate SameAddress(h: ShardHistory)
  {
    forall k, l, r :: 0 <= k < l < |h| && r in h[k].members && r in h[l].members ==> h[k].members[r] == h[l].members[r]
  }

  // Once removed a replica never returns.
  ghost predicate NeverBack(h: ShardHistory)
  {
    forall k, l, m, r :: 0 <= k < l < m < |h| && r in h[k].members && r !in h[l].members ==> r !in h[m].members
  }

  ghost predicate HistoryOk(h: ShardHistory)
  {
    && h != [] && Increasing(h) && SameAddress(h) && NeverBack(h)
    && forall k: nat :: k < |h| ==> ConfigOk(h, k)
  }

  ghost predicate TruthOk(truth: Histories)
  {
    forall s :: s in truth ==> HistoryOk(truth[s])
  }

  // Later truth: shards are added, histories are extended.
  ghost predicate Extends(truth: Histories, later: Histories)
  {
    forall s :: s in truth ==> s in later && truth[s] <= later[s]
  }

  // ----- agreement

  ghost predicate Is(h: ShardHistory, k: nat, index: nat, members: map<nat, string>)
  {
    k < |h| && h[k] == Config(index, members)
  }

  // Some configuration of the shard is exactly this.
  ghost predicate Was(truth: Histories, s: nat, index: nat, members: map<nat, string>)
  {
    s in truth && exists k: nat :: Is(truth[s], k, index, members)
  }

  // Replica r was a member, and is not one any more.
  ghost predicate Gone(truth: Histories, s: nat, r: nat)
  {
    s in truth && exists k: nat, l: nat :: k < l < |truth[s]| && r in truth[s][k].members && r !in truth[s][l].members
  }

  ghost predicate IsMember(truth: Histories, s: nat, r: nat)
  {
    s in truth && truth[s] != [] && r in truth[s][|truth[s]| - 1].members
  }

  ghost predicate KnownAt(h: ShardHistory, k: nat, image: Image, s: nat, r: nat)
  {
    k < |h| && r in h[k].members && if s in image then h[k].index <= image[s].index else k == 0
  }

  // Replica r was a member no later than the image can tell: at a configuration not after the
  // imaged one, or at the first when the shard is not imaged yet.
  ghost predicate Known(truth: Histories, image: Image, s: nat, r: nat)
  {
    s in truth && exists k: nat :: KnownAt(truth[s], k, image, s, r)
  }

  ghost predicate RecordOk(truth: Histories, s: nat, c: ShardRecord)
  {
    c.shardId == s && KeyedRecord(c) && Was(truth, s, c.index, Members(c))
  }

  ghost predicate ImageOk(truth: Histories, image: Image)
  {
    forall s :: s in image ==> RecordOk(truth, s, image[s])
  }

  ghost predicate ImageLe(image: Image, later: Image)
  {
    forall s :: s in image ==> s in later && image[s].index <= later[s].index
  }

  // A membership a report entry carries is one the shard has had.
  ghost predicate InfoTrue(truth: Histories, ci: ShardInfo)
  {
    !ci.pending && !ci.incomplete ==> Was(truth, ci.shardId, ci.index, ci.replicas)
  }

  // Moreover the reporting replica was started, so it is known.
  ghost predicate InfoOk(truth: Histories, image: Image, ci: ShardInfo)
  {
    InfoTrue(truth, ci) && Known(truth, image, ci.shardId, ci.replicaId)
  }

  // ----- growth of the truth

  lemma WasStays(truth: Histories, later: Histories, s: nat, index: nat, members: map<nat, string>)
    requires Extends(truth, later) && Was(truth, s, index, members)
    ensures Was(later, s, index, members)
  {
    var k: nat :| Is(truth[s], k, index, members);
    assert Is(later[s], k, index, members);
  }

  lemma GoneStays(truth: Histories, later: Histories, s: nat, r: nat)
    requires Extends(truth, later) && Gone(truth, s, r)
    ensures Gone(later, s, r)
  {
    var k: nat, l: nat :| k < l < |truth[s]| && r in truth[s][k].members && r !in truth[s][l].members;
    assert later[s][k] == truth[s][k] && later[s][l] == truth[s][l];
  }

  lemma GoneAtEnd(h: ShardHistory, k: nat, l: nat, r: nat)
    requires NeverBack(h) && k < l < |h| && r in h[k].members && r !in h[l].members
    ensures r !in h[|h| - 1].members
  {}

  // A replica that is gone is no member, now or later.
  lemma GoneIsNoMember(truth: Histories, s: nat, r: nat)
    requires TruthOk(truth) && Gone(truth, s, r)
    ensures !IsMember(truth, s, r)
  {
    hide NeverBack, Increasing, SameAddress, ConfigOk;
    var h := truth[s];
    assert HistoryOk(h);
    var k: nat, l: nat :| k < l < |h| && r in h[k].members && r !in h[l].members;
    GoneAtEnd(h, k, l, r);
  }

  lemma KnownStays(truth: Histories, later: Histories, image: Image, image': Image, s: nat, r: nat)
    requires Extends(truth, later) && TruthOk(later) && ImageLe(image, image') && ImageOk(later, image')
    requires Known(truth, image, s, r)
    ensures Known(later, image', s, r)
  {
    hide NeverBack, SameAddress, ConfigOk, KeyedRecord;
    var k: nat :| KnownAt(truth[s], k, image, s, r);
    assert later[s][k] == truth[s][k];
    if s in image' && s !in image {
      assert RecordOk(later, s, image'[s]);
      var j: nat :| Is(later[s], j, image'[s].index, Members(image'[s]));
      assert HistoryOk(later[s]);
    }
    assert KnownAt(later[s], k, image', s, r);
  }

  // The index determines the configuration.
  lemma IndexUnique(truth: Histories, s: nat, index: nat, m1: map<nat, string>, m2: map<nat, string>)
    requires TruthOk(truth) && Was(truth, s, index, m1) && Was(truth, s, index, m2)
    ensures m1 == m2
  {
    hide NeverBack, SameAddress, ConfigOk;
    var h := truth[s];
    var j: nat :| Is(h, j, index, m1);
    var k: nat :| Is(h, k, index, m2);
    assert HistoryOk(h);
  }

  // ----- one report entry

  lemma MembersResynced(c: ShardRecord, ci: ShardInfo, lastTick: nat)
    requires SyncedShard(c, ci, lastTick).Synced?
    ensures Members(SyncedShard(c, ci, lastTick).shard) == ci.replicas
  {}

  // syncShard's panics cannot happen on a truthful report.
  lemma NoSyncPanic(truth: Histories, s: nat, c: ShardRecord, ci: ShardInfo, lastTick: nat)
    requires TruthOk(truth) && RecordOk(truth, s, c) && Was(truth, s, ci.index, ci.replicas)
    ensures !SyncedShard(c, ci, lastTick).Panic?
  {
    hide NeverBack, KeyedRecord;
    var h := truth[s];
    assert HistoryOk(h);
    var j: nat :| Is(h, j, c.index, Members(c));
    var k: nat :| Is(h, k, ci.index, ci.replicas);
    assert ConfigOk(h, k);
    forall r | r in c.replicas && r in ci.replicas
      ensures c.replicas[r].address == ci.replicas[r]
    {
      assert Members(c)[r] == c.replicas[r].address;
      assert r in h[j].members && r in h[k].members;
    }
    if c.index == ci.index {
      assert j == k;
      assert Members(c).Keys == ci.replicas.Keys;
    }
  }

  // A replica the image asks to kill is gone: it was a member at or before the imaged
  // configuration and is not in it.
  lemma KillMeansGone(truth: Histories, image: Image, ci: ShardInfo)
    requires TruthOk(truth) && ImageOk(truth, image) && ci.shardId in image
    requires Known(truth, image, ci.shardId, ci.replicaId) && KillRequired(image[ci.shardId], ci)
    ensures Gone(truth, ci.shardId, ci.replicaId)
  {
    hide NeverBack, SameAddress, ConfigOk, KeyedRecord;
    var s, r := ci.shardId, ci.replicaId;
    var h, c := truth[s], image[s];
    assert HistoryOk(h) && RecordOk(truth, s, c);
    var k: nat :| KnownAt(h, k, image, s, r);
    var j: nat :| Is(h, j, c.index, Members(c));
    assert r !in Members(c);
  }

  lemma SyncKeeps(truth: Histories, s: nat, c: ShardRecord, ci: ShardInfo, lastTick: nat)
    requires TruthOk(truth) && RecordOk(truth, s, c) && ci.shardId == s && Was(truth, s, ci.index, ci.replicas)
    ensures !SyncedShard(c, ci, lastTick).Panic?
    ensures SyncedShard(c, ci, lastTick).Synced? ==>
              var c' := SyncedShard(c, ci, lastTick).shard;
              RecordOk(truth, s, c') && c'.index == ci.index && c.index <= c'.index
  {
    NoSyncPanic(truth, s, c, ci, lastTick);
    hide TruthOk, Was;
    if SyncedShard(c, ci, lastTick).Synced? {
      MembersResynced(c, ci, lastTick);
    }
  }

  lemma NewRecordOk(truth: Histories, ci: ShardInfo, lastTick: nat)
    requires Was(truth, ci.shardId, ci.index, ci.replicas)
    ensures RecordOk(truth, ci.shardId, NewShard(ci, lastTick))
  {
    assert Members(NewShard(ci, lastTick)) == ci.replicas;
  }

  // One truthful entry: no panic, the image stays true, and only gone replicas are to be killed.
  lemma InfoKeeps(truth: Histories, image: Image, ci: ShardInfo, lastTick: nat)
    requires TruthOk(truth) && ImageOk(truth, image) && InfoTrue(truth, ci)
    ensures InfoApplied(image, ci, lastTick).Updated?
    ensures var image' := InfoApplied(image, ci, lastTick).image;
            ImageOk(truth, image') && ImageLe(image, image')
    ensures Known(truth, image, ci.shardId, ci.replicaId) ==>
              forall q :: q in InfoApplied(image, ci, lastTick).toKill ==> Gone(truth, q.shardId, q.replicaId)
  {
    hide TruthOk, SyncedShard, NewShard, RecordOk, Known, Was, Gone, KillRequired;
    var s := ci.shardId;
    if Known(truth, image, s, ci.replicaId) && s in image && KillRequired(image[s], ci) {
      KillMeansGone(truth, image, ci);
    }
    if !ci.pending && !ci.incomplete {
      if s in image {
        SyncKeeps(truth, s, image[s], ci, lastTick);
      } else {
        NewRecordOk(truth, ci, lastTick);
      }
    }
  }
}
