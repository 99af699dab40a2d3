// Drummer's view of the shards it manages: what one report does to it (shardimage.go).
module ShardImage {
  import opened Basics

  const NODE_HOST_TTL: nat := 60

  // Ticks are unsigned 64-bit numbers, so the difference wraps around when lastTick is ahead.
  predicate EntityFailed(lastTick: nat, currentTick: nat)
  {
    (currentTick - lastTick) % TWO_64 > NODE_HOST_TTL
  }

  datatype Replica = Replica(shardId: nat, replicaId: nat, address: string, isLeader: bool, tick: nat, firstObserved: nat)
  {
    // failed
    predicate Failed(currentTick: nat)
    {
      if tick == 0 then firstObserved == 0 else EntityFailed(tick, currentTick)
    }

    // waitingToBeStarted
    predicate Waiting(currentTick: nat)
    {
      tick == 0 && !Failed(currentTick)
    }

    predicate Ok(currentTick: nat)
    {
      !Failed(currentTick) && !Waiting(currentTick)
    }
  }

  // The value of a shard record.
  datatype ShardRecord = ShardRecord(shardId: nat, index: nat, replicas: map<nat, Replica>)

  type Image = map<nat, ShardRecord>

  // One entry of a report: what the replica `replicaId` running on the reporting host knows.
  datatype ShardInfo = ShardInfo(shardId: nat, replicaId: nat, isLeader: bool, replicas: map<nat, string>,
                                 index: nat, incomplete: bool, pending: bool)

  datatype ReplicaToKill = ReplicaToKill(shardId: nat, replicaId: nat, address: string)

  // The membership a record stands for.
  function Members(c: ShardRecord): map<nat, string>
  {
    map r | r in c.replicas :: c.replicas[r].address
  }

  predicate DistinctAddresses(m: map<nat, string>)
  {
    forall r, q :: r in m && q in m && m[r] == m[q] ==> r == q
  }

  predicate KillRequired(c: ShardRecord, ci: ShardInfo)
  {
    c.index > ci.index && ci.replicaId !in c.replicas
  }

  // ----- one report entry against one record

  datatype SyncOutcome = Panic | Rejected | Synced(shard: ShardRecord)

  // The replicas of the reported membership: those already known stay as they are.
  function Resynced(c: ShardRecord, ci: ShardInfo, lastTick: nat): map<nat, Replica>
  {
    map r | r in ci.replicas ::
      if r in c.replicas then c.replicas[r] else Replica(ci.shardId, r, ci.replicas[r], false, 0, lastTick)
  }

  // syncShard, with its four panics as one outcome.
  function SyncedShard(c: ShardRecord, ci: ShardInfo, lastTick: nat): SyncOutcome
  {
    if c.index > ci.index then Rejected
    else if c.index == ci.index && c.replicas.Keys != ci.replicas.Keys then Panic
    else if exists r :: r in c.replicas && r in ci.replicas && c.replicas[r].address != ci.replicas[r] then Panic
    else if !DistinctAddresses(ci.replicas) then Panic
    else Synced(ShardRecord(c.shardId, ci.index, Resynced(c, ci, lastTick)))
  }

  // What each outcome means: an older report is rejected, and one that is taken is the new membership,
  // with every replica already known as it was. In between is the inconsistent.
  lemma SyncMeans(c: ShardRecord, ci: ShardInfo, lastTick: nat)
    ensures SyncedShard(c, ci, lastTick).Rejected? <==> ci.index < c.index
    ensures SyncedShard(c, ci, lastTick).Synced? <==>
              && c.index <= ci.index && DistinctAddresses(ci.replicas)
              && (c.index == ci.index ==> c.replicas.Keys == ci.replicas.Keys)
              && forall r :: r in c.replicas && r in ci.replicas ==> c.replicas[r].address == ci.replicas[r]
    ensures SyncedShard(c, ci, lastTick).Synced? ==>
              var c' := SyncedShard(c, ci, lastTick).shard;
              && c'.shardId == c.shardId && c'.index == ci.index && Members(c') == ci.replicas
              && forall r :: r in c'.replicas && r in c.replicas ==> c'.replicas[r] == c.replicas[r]
  {
    hide DistinctAddresses;
  }

  class Shard {
    const shardId: nat
    var configChangeIndex: nat
    var replicas: map<nat, Replica>

    function View(): ShardRecord
      reads this
    {
      ShardRecord(shardId, configChangeIndex, replicas)
    }

    constructor (shardId: nat, configChangeIndex: nat, replicas: map<nat, Replica>)
      ensures View() == ShardRecord(shardId, configChangeIndex, replicas)
    {
      this.shardId, this.configChangeIndex, this.replicas := shardId, configChangeIndex, replicas;
    }

    method KillRequestRequired(ci: ShardInfo) returns (required: bool)
      ensures required <==> KillRequired(View(), ci)
    {
      if configChangeIndex <= ci.index {
        return false;
      }
      var ids := replicas.Keys;
      while ids != {}
        invariant ids <= replicas.Keys
        invariant ci.replicaId in replicas ==> ci.replicaId in ids
        decreases ids
      {
        var nid :| nid in ids;
        if nid == ci.replicaId {
          return false;
        }
        ids := ids - {nid};
      }
      return true;
    }

    // Whether the record and an equally old report disagree on who the replicas are.
    method IdListClash(reported: map<nat, string>) returns (clash: bool)
      ensures clash <==> replicas.Keys != reported.Keys
    {
      if |replicas| != |reported| {
        assert |replicas.Keys| != |reported.Keys|;
        return true;
      }
      var ids := reported.Keys;
      while ids != {}
        invariant ids <= reported.Keys && reported.Keys - ids <= replicas.Keys
        decreases ids
      {
        var nid :| nid in ids;
        if nid !in replicas {
          return true;
        }
        ids := ids - {nid};
      }
      SameSizeSubset(reported.Keys, replicas.Keys);
      return false;
    }

    method RemoveMissing(reported: map<nat, string>)
      modifies this`replicas
      ensures replicas == map r | r in old(replicas) && r in reported :: old(replicas)[r]
    {
      var toRemove := [];
      var ids := replicas.Keys;
      while ids != {}
        invariant ids <= replicas.Keys && replicas == old(replicas)
        invariant forall r :: r in toRemove <==> r in replicas && r !in reported && r !in ids
        decreases ids
      {
        var nid :| nid in ids;
        if nid !in reported {
          toRemove := toRemove + [nid];
        }
        ids := ids - {nid};
      }
      for i := 0 to |toRemove|
        invariant replicas == map r | r in old(replicas) && r !in toRemove[..i] :: old(replicas)[r]
      {
        assert toRemove[..i + 1] == toRemove[..i] + [toRemove[i]];
        replicas := replicas - {toRemove[i]};
      }
      assert toRemove[..|toRemove|] == toRemove;
    }

    // Adds the reported replicas that are missing; stops at one whose address has changed.
    method AddReported(ci: ShardInfo, lastTick: nat) returns (moved: bool)
      requires replicas.Keys <= ci.replicas.Keys
      modifies this`replicas
      ensures moved <==> exists r :: r in old(replicas) && old(replicas)[r].address != ci.replicas[r]
      ensures !moved ==> replicas == Resynced(old(View()), ci, lastTick)
    {
      ghost var was := View();
      var ids := ci.replicas.Keys;
      while ids != {}
        invariant ids <= ci.replicas.Keys
        invariant replicas.Keys == was.replicas.Keys + (ci.replicas.Keys - ids)
        invariant forall r :: r in replicas ==> replicas[r] == Resynced(was, ci, lastTick)[r]
        invariant forall r :: r in was.replicas && was.replicas[r].address != ci.replicas[r] ==> r in ids
        decreases ids
      {
        var replicaId :| replicaId in ids;
        var address := ci.replicas[replicaId];
        if replicaId !in replicas {
          replicas := replicas[replicaId := Replica(ci.shardId, replicaId, address, false, 0, lastTick)];
        } else if replicas[replicaId].address != address {
          return true;
        }
        ids := ids - {replicaId};
      }
      return false;
    }

    method DuplicatedAddress() returns (duplicated: bool)
      ensures duplicated <==> !DistinctAddresses(Members(View()))
    {
      var addrMap: set<string> := {};
      ghost var done: set<nat> := {};
      var ids := replicas.Keys;
      while ids != {}
        invariant ids <= replicas.Keys && done == replicas.Keys - ids
        invariant forall r :: r in done ==> replicas[r].address in addrMap
        invariant forall a :: a in addrMap ==> exists r :: r in done && replicas[r].address == a
        invariant forall r, q :: r in done && q in done && replicas[r].address == replicas[q].address ==> r == q
        decreases ids
      {
        var r :| r in ids;
        if replicas[r].address in addrMap {
          ghost var q :| q in done && replicas[q].address == replicas[r].address;
          assert Members(View())[r] == Members(View())[q];
          return true;
        }
        addrMap := addrMap + {replicas[r].address};
        ids, done := ids - {r}, done + {r};
      }
      return false;
    }

    // The result mirrors SyncedShard; after a panic the state is of no interest.
    method SyncShard(ci: ShardInfo, lastTick: nat) returns (outcome: SyncOutcome)
      modifies this
      ensures outcome == SyncedShard(old(View()), ci, lastTick)
      ensures outcome.Rejected? ==> View() == old(View())
      ensures outcome.Synced? ==> View() == outcome.shard
    {
      ghost var was := View();
      if configChangeIndex > ci.index {
        return Rejected;
      }
      if configChangeIndex == ci.index {
        var clash := IdListClash(ci.replicas);
        if clash {
          return Panic;
        }
      }
      configChangeIndex := ci.index;
      RemoveMissing(ci.replicas);
      assert Resynced(View(), ci, lastTick) == Resynced(was, ci, lastTick);
      var moved := AddReported(ci, lastTick);
      if moved {
        return Panic;
      }
      assert Members(View()) == ci.replicas;
      var duplicated := DuplicatedAddress();
      if duplicated {
        return Panic;
      }
      return Synced(View());
    }
  }

  // ----- a whole report against the image

  datatype UpdateOutcome = UpdatePanic | Updated(image: Image, toKill: seq<ShardInfo>)

  // getShard
  function NewShard(ci: ShardInfo, tick: nat): ShardRecord
  {
    ShardRecord(ci.shardId, ci.index,
                map r | r in ci.replicas ::
                  Replica(ci.shardId, r, ci.replicas[r], r == ci.replicaId && ci.isLeader, 0, tick))
  }

  // The kill test for entries that carry no membership.
  predicate KillWithoutMembership(image: Image, ci: ShardInfo)
  {
    && ci.shardId in image
    && |image[ci.shardId].replicas| > 0 && image[ci.shardId].index > 0 && KillRequired(image[ci.shardId], ci)
  }

  // One round of doUpdate's loop.
  function InfoApplied(image: Image, ci: ShardInfo, lastTick: nat): UpdateOutcome
  {
    if ci.pending || ci.incomplete then
      Updated(image, if KillWithoutMembership(image, ci) then [ci] else [])
    else if ci.shardId !in image then
      Updated(image[ci.shardId := NewShard(ci, lastTick)], [])
    else
      match SyncedShard(image[ci.shardId], ci, lastTick)
      case Panic => UpdatePanic
      case Rejected => Updated(image, if KillRequired(image[ci.shardId], ci) then [ci] else [])
      case Synced(c) => Updated(image[ci.shardId := c], [])
  }

  // doUpdate's loop.
  function InfosApplied(image: Image, infos: seq<ShardInfo>, lastTick: nat): UpdateOutcome
  {
    if infos == [] then Updated(image, [])
    else
      match InfosApplied(image, infos[..|infos| - 1], lastTick)
      case UpdatePanic => UpdatePanic
      case Updated(before, kills) =>
        match InfoApplied(before, infos[|infos| - 1], lastTick)
        case UpdatePanic => UpdatePanic
        case Updated(after, kill) => Updated(after, kills + kill)
  }

  predicate Reports(infos: seq<ShardInfo>, s: nat, r: nat)
  {
    exists k :: 0 <= k < |infos| && infos[k].shardId == s && infos[k].replicaId == r
  }

  // updateNodeTick: the reported replicas have been heard of now.
  function Ticked(image: Image, infos: seq<ShardInfo>, lastTick: nat): Image
  {
    map s | s in image ::
      image[s].(replicas := map r | r in image[s].replicas ::
        if Reports(infos, s, r) then image[s].replicas[r].(tick := lastTick) else image[s].replicas[r])
  }

  // One round of syncLeaderInfo.
  function LeaderApplied(image: Image, ci: ShardInfo): Image
  {
    if ci.shardId !in image || image[ci.shardId].index > ci.index || ci.replicaId !in image[ci.shardId].replicas
    then image
    else
      var c := image[ci.shardId];
      var n := c.replicas[ci.replicaId];
      if !ci.isLeader && n.isLeader then
        image[ci.shardId := c.(replicas := c.replicas[ci.replicaId := n.(isLeader := false)])]
      else if ci.isLeader && !n.isLeader then
        image[ci.shardId := c.(replicas := map r | r in c.replicas :: c.replicas[r].(isLeader := r == ci.replicaId))]
      else image
  }

  function LeadersApplied(image: Image, infos: seq<ShardInfo>): Image
  {
    if infos == [] then image else LeaderApplied(LeadersApplied(image, infos[..|infos| - 1]), infos[|infos| - 1])
  }

  function KillsOf(infos: seq<ShardInfo>, address: string): seq<ReplicaToKill>
  {
    seq(|infos|, i requires 0 <= i < |infos| => ReplicaToKill(infos[i].shardId, infos[i].replicaId, address))
  }

  // (mc *multiShard) update, as a function of the image.
  datatype ReportOutcome = ReportPanic | Reported(image: Image, kills: seq<ReplicaToKill>)

  function ReportApplied(image: Image, infos: seq<ShardInfo>, address: string, lastTick: nat): ReportOutcome
  {
    match InfosApplied(image, infos, lastTick)
    case UpdatePanic => ReportPanic
    case Updated(synced, toKill) =>
      Reported(LeadersApplied(Ticked(synced, infos, lastTick), infos), KillsOf(toKill, address))
  }

  lemma TickedNothing(image: Image, lastTick: nat)
    ensures Ticked(image, [], lastTick) == image
  {
    forall s | s in image
      ensures Ticked(image, [], lastTick)[s] == image[s]
    {
      assert Ticked(image, [], lastTick)[s].replicas == image[s].replicas;
    }
  }

  function TickedOne(image: Image, ci: ShardInfo, lastTick: nat): Image
  {
    if ci.shardId in image && ci.replicaId in image[ci.shardId].replicas then
      var c := image[ci.shardId];
      image[ci.shardId := c.(replicas := c.replicas[ci.replicaId := c.replicas[ci.replicaId].(tick := lastTick)])]
    else image
  }

  lemma ReportsSnoc(infos: seq<ShardInfo>, k: nat)
    requires k < |infos|
    ensures forall s, r :: Reports(infos[..k + 1], s, r) <==>
              Reports(infos[..k], s, r) || (s == infos[k].shardId && r == infos[k].replicaId)
  {
    forall s, r
      ensures Reports(infos[..k + 1], s, r) <==>
                Reports(infos[..k], s, r) || (s == infos[k].shardId && r == infos[k].replicaId)
    {
      assert forall i :: 0 <= i < k ==> infos[..k + 1][i] == infos[..k][i];
      assert infos[..k + 1][k] == infos[k];
    }
  }

  lemma TickedSnoc(image: Image, infos: seq<ShardInfo>, k: nat, lastTick: nat)
    requires k < |infos|
    ensures Ticked(image, infos[..k + 1], lastTick) == TickedOne(Ticked(image, infos[..k], lastTick), infos[k], lastTick)
  {
    ReportsSnoc(infos, k);
    var was := Ticked(image, infos[..k], lastTick);
    var now := TickedOne(was, infos[k], lastTick);
    forall s | s in image
      ensures Ticked(image, infos[..k + 1], lastTick)[s] == now[s]
    {
      assert Ticked(image, infos[..k + 1], lastTick)[s].replicas == now[s].replicas;
    }
  }

  lemma {:induction false} PanicStays(image: Image, infos: seq<ShardInfo>, k: nat, lastTick: nat)
    requires k <= |infos| && InfosApplied(image, infos[..k], lastTick).UpdatePanic?
    ensures InfosApplied(image, infos, lastTick).UpdatePanic?
    decreases |infos|
  {
    if k < |infos| {
      assert infos[..|infos| - 1][..k] == infos[..k];
      PanicStays(image, infos[..|infos| - 1], k, lastTick);
    } else {
      assert infos[..k] == infos;
    }
  }

  class MultiShard {
    var shards: map<nat, Shard>
    var replicasToKill: seq<ReplicaToKill>

    // No two entries share a record.
    ghost predicate Valid()
      reads `shards
    {
      forall s, t :: s in shards && t in shards && shards[s] == shards[t] ==> s == t
    }

    ghost function View(): Image
      reads `shards, shards.Values
    {
      map s | s in shards :: shards[s].View()
    }

    constructor ()
      ensures Valid() && View() == map[] && replicasToKill == []
    {
      shards, replicasToKill := map[], [];
    }

    // The image by value, as a reader of the map sees it.
    method Snapshot() returns (image: Image)
      ensures image == View()
    {
      image := map s | s in shards :: shards[s].View();
    }

    // An entry without a membership only asks whether its replica is to be killed.
    method ApplyBareInfo(ci: ShardInfo) returns (toKill: seq<ShardInfo>)
      requires Valid()
      ensures toKill == if KillWithoutMembership(View(), ci) then [ci] else []
    {
      hide KillRequired;
      toKill := [];
      if ci.shardId in shards {
        var ec := shards[ci.shardId];
        if |ec.replicas| > 0 && ec.configChangeIndex > 0 {
          var required := ec.KillRequestRequired(ci);
          if required {
            toKill := [ci];
          }
        }
      }
    }

    // A shard seen for the first time (getShard).
    method AddShard(ci: ShardInfo, lastTick: nat)
      requires Valid() && ci.shardId !in shards
      modifies this`shards
      ensures Valid() && View() == old(View())[ci.shardId := NewShard(ci, lastTick)]
      ensures fresh(shards.Values - old(shards.Values))
    {
      var replicas := map r | r in ci.replicas ::
        Replica(ci.shardId, r, ci.replicas[r], r == ci.replicaId && ci.isLeader, 0, lastTick);
      var c := new Shard(ci.shardId, ci.index, replicas);
      shards := shards[ci.shardId := c];
    }

    // A membership of a shard known already.
    method SyncKnownShard(ci: ShardInfo, lastTick: nat) returns (panicked: bool, toKill: seq<ShardInfo>)
      requires Valid() && ci.shardId in shards
      modifies shards.Values
      ensures var c := old(View())[ci.shardId];
              var outcome := SyncedShard(c, ci, lastTick);
              && (panicked <==> outcome.Panic?)
              && (outcome.Rejected? ==> View() == old(View()))
              && (outcome.Synced? ==> View() == old(View())[ci.shardId := outcome.shard])
              && toKill == (if outcome.Rejected? && KillRequired(c, ci) then [ci] else [])
    {
      hide SyncedShard, KillRequired;
      toKill := [];
      var ec := shards[ci.shardId];
      var outcome := ec.SyncShard(ci, lastTick);
      panicked := outcome.Panic?;
      if panicked {
        return;
      }
      var killRequired := ec.KillRequestRequired(ci);
      if outcome.Rejected? && killRequired {
        toKill := [ci];
      }
      forall t | t in shards && t != ci.shardId
        ensures shards[t].View() == old(shards[t].View())
      {
        assert shards[t] != ec;
      }
    }

    // One round of doUpdate's loop.
    method ApplyInfo(ci: ShardInfo, lastTick: nat) returns (panicked: bool, toKill: seq<ShardInfo>)
      requires Valid()
      modifies this`shards, shards.Values
      ensures panicked <==> InfoApplied(old(View()), ci, lastTick).UpdatePanic?
      ensures !panicked ==> Valid() && InfoApplied(old(View()), ci, lastTick) == Updated(View(), toKill)
      ensures fresh(shards.Values - old(shards.Values))
    {
      hide SyncedShard, KillRequired, KillWithoutMembership, NewShard;
      if ci.pending || ci.incomplete {
        toKill := ApplyBareInfo(ci);
        panicked := false;
      } else if ci.shardId !in shards {
        AddShard(ci, lastTick);
        panicked, toKill := false, [];
      } else {
        panicked, toKill := SyncKnownShard(ci, lastTick);
      }
    }

    method UpdateNodeTick(infos: seq<ShardInfo>, lastTick: nat)
      requires Valid()
      modifies shards.Values
      ensures View() == Ticked(old(View()), infos, lastTick)
    {
      hide Ticked;
      TickedNothing(View(), lastTick);
      for k := 0 to |infos|
        invariant Valid() && View() == Ticked(old(View()), infos[..k], lastTick)
      {
        var cid, nid := infos[k].shardId, infos[k].replicaId;
        TickedSnoc(old(View()), infos, k, lastTick);
        if cid in shards {
          var ec := shards[cid];
          if nid in ec.replicas {
            ec.replicas := ec.replicas[nid := ec.replicas[nid].(tick := lastTick)];
          }
        }
      }
      assert infos[..|infos|] == infos;
    }

    method DoUpdate(infos: seq<ShardInfo>, lastTick: nat) returns (panicked: bool, toKill: seq<ShardInfo>)
      requires Valid()
      modifies this`shards, shards.Values
      ensures panicked <==> InfosApplied(old(View()), infos, lastTick).UpdatePanic?
      ensures !panicked ==>
        var outcome := InfosApplied(old(View()), infos, lastTick);
        Valid() && View() == Ticked(outcome.image, infos, lastTick) && toKill == outcome.toKill
      ensures fresh(shards.Values - old(shards.Values))
    {
      toKill := [];
      for k := 0 to |infos|
        invariant Valid() && fresh(shards.Values - old(shards.Values))
        invariant InfosApplied(old(View()), infos[..k], lastTick) == Updated(View(), toKill)
      {
        assert infos[..k + 1][..k] == infos[..k];
        var stop, kill := ApplyInfo(infos[k], lastTick);
        if stop {
          PanicStays(old(View()), infos, k + 1, lastTick);
          return true, [];
        }
        toKill := toKill + kill;
      }
      assert infos[..|infos|] == infos;
      panicked := false;
      UpdateNodeTick(infos, lastTick);
    }

    method SyncLeader(ci: ShardInfo)
      requires Valid()
      modifies shards.Values
      ensures View() == LeaderApplied(old(View()), ci)
    {
      if ci.shardId !in shards {
        return;
      }
      var c := shards[ci.shardId];
      if c.configChangeIndex > ci.index || ci.replicaId !in c.replicas {
        return;
      }
      var n := c.replicas[ci.replicaId];
      if !ci.isLeader && n.isLeader {
        c.replicas := c.replicas[ci.replicaId := n.(isLeader := false)];
      } else if ci.isLeader && !n.isLeader {
        c.replicas := map r | r in c.replicas :: c.replicas[r].(isLeader := false);
        c.replicas := c.replicas[ci.replicaId := c.replicas[ci.replicaId].(isLeader := true)];
        assert c.replicas == map r | r in old(c.replicas) :: old(c.replicas)[r].(isLeader := r == ci.replicaId);
        assert View()[ci.shardId] == LeaderApplied(old(View()), ci)[ci.shardId];
      }
    }

    method SyncLeaderInfo(infos: seq<ShardInfo>)
      requires Valid()
      modifies shards.Values
      ensures View() == LeadersApplied(old(View()), infos)
    {
      for k := 0 to |infos|
        invariant Valid() && View() == LeadersApplied(old(View()), infos[..k])
      {
        assert infos[..k + 1][..k] == infos[..k];
        SyncLeader(infos[k]);
      }
      assert infos[..|infos|] == infos;
    }

    // update: the image and the kill list after one report.
    method Update(infos: seq<ShardInfo>, address: string, lastTick: nat) returns (panicked: bool)
      requires Valid()
      modifies this, shards.Values
      ensures panicked <==> ReportApplied(old(View()), infos, address, lastTick).ReportPanic?
      ensures !panicked ==>
        var outcome := ReportApplied(old(View()), infos, address, lastTick);
        Valid() && View() == outcome.image && replicasToKill == old(replicasToKill) + outcome.kills
      ensures fresh(shards.Values - old(shards.Values))
    {
      hide InfosApplied, Ticked, LeadersApplied;
      var toKill;
      panicked, toKill := DoUpdate(infos, lastTick);
      if panicked {
        return;
      }
      for k := 0 to |toKill|
        invariant replicasToKill == old(replicasToKill) + KillsOf(toKill[..k], address)
        modifies this`replicasToKill
      {
        replicasToKill := replicasToKill + [ReplicaToKill(toKill[k].shardId, toKill[k].replicaId, address)];
      }
      assert toKill[..|toKill|] == toKill;
      SyncLeaderInfo(infos);
    }

    // getToKillReplicas empties the list it is called on: the decoded copy of a scheduler, never
    // the list in the database.
    method GetToKillReplicas() returns (result: seq<ReplicaToKill>)
      modifies this`replicasToKill
      ensures result == old(replicasToKill) && replicasToKill == []
    {
      result := [];
      for k := 0 to |replicasToKill|
        invariant result == replicasToKill[..k]
      {
        result := result + [replicasToKill[k]];
      }
      replicasToKill := [];
    }
  }
}
