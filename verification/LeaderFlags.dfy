// The leader flags of the image: at most one replica of a shard leads, and it is the one that said
// so last.
module LeaderFlags {
  import opened ShardImage
  import opened Reports
  import opened Database

  ghost predicate OneLeader(c: ShardRecord)
  {
    forall r, q :: r in c.replicas && q in c.replicas && c.replicas[r].isLeader && c.replicas[q].isLeader ==> r == q
  }

  ghost predicate OneLeaderEach(image: Image)
  {
    forall s :: s in image ==> OneLeader(image[s])
  }

  // ----- what one entry does to the flags

  // An entry counts for a replica that is imaged, at an index not older than the record.
  ghost predicate Counts(image: Image, ci: ShardInfo)
  {
    ci.shardId in image && ci.replicaId in image[ci.shardId].replicas && image[ci.shardId].index <= ci.index
  }

  // After an entry that counts its replica leads exactly if it said so, and then no other does; who
  // does not lead leaves the flags of the others alone. No other shard is touched.
  lemma FlagsTakenOver(image: Image, ci: ShardInfo)
    requires OneLeaderEach(image)
    ensures !Counts(image, ci) ==> LeaderApplied(image, ci) == image
    ensures Counts(image, ci) ==>
              var s, r, image' := ci.shardId, ci.replicaId, LeaderApplied(image, ci);
              && image'.Keys == image.Keys && (forall t :: t in image && t != s ==> image'[t] == image[t])
              && image'[s].replicas.Keys == image[s].replicas.Keys
              && (image'[s].replicas[r].isLeader <==> ci.isLeader)
              && (forall q :: q in image[s].replicas && q != r ==>
                    (image'[s].replicas[q].isLeader <==> !ci.isLeader && image[s].replicas[q].isLeader))
  {}

  lemma LeaderKeepsOne(image: Image, ci: ShardInfo)
    requires OneLeaderEach(image)
    ensures OneLeaderEach(LeaderApplied(image, ci))
  {
    var image' := LeaderApplied(image, ci);
    forall s | s in image'
      ensures OneLeader(image'[s])
    {
      assert OneLeader(image[s]);
    }
  }

  lemma {:induction false} LeadersKeepOne(image: Image, infos: seq<ShardInfo>)
    requires OneLeaderEach(image)
    ensures OneLeaderEach(LeadersApplied(image, infos))
  {
    hide LeaderApplied, OneLeaderEach;
    if infos != [] {
      LeadersKeepOne(image, infos[..|infos| - 1]);
      LeaderKeepsOne(LeadersApplied(image, infos[..|infos| - 1]), infos[|infos| - 1]);
    }
  }

  // ----- what a report does to them

  lemma InfoKeepsOne(image: Image, ci: ShardInfo, now: nat)
    requires OneLeaderEach(image) && InfoApplied(image, ci, now).Updated?
    ensures OneLeaderEach(InfoApplied(image, ci, now).image)
  {
    hide KillRequired, DistinctAddresses;
    if !ci.pending && !ci.incomplete && ci.shardId in image && SyncedShard(image[ci.shardId], ci, now).Synced? {
      assert OneLeader(image[ci.shardId]);
    }
  }

  lemma {:induction false} InfosKeepOne(image: Image, infos: seq<ShardInfo>, now: nat)
    requires OneLeaderEach(image) && InfosApplied(image, infos, now).Updated?
    ensures OneLeaderEach(InfosApplied(image, infos, now).image)
  {
    hide InfoApplied, OneLeaderEach;
    if infos != [] {
      InfosKeepOne(image, infos[..|infos| - 1], now);
      InfoKeepsOne(InfosApplied(image, infos[..|infos| - 1], now).image, infos[|infos| - 1], now);
    }
  }

  lemma TicksKeepOne(image: Image, infos: seq<ShardInfo>, now: nat)
    requires OneLeaderEach(image)
    ensures OneLeaderEach(Ticked(image, infos, now))
  {
    forall s | s in image
      ensures OneLeader(Ticked(image, infos, now)[s])
    {
      assert OneLeader(image[s]);
    }
  }

  lemma ReportKeepsOne(image: Image, infos: seq<ShardInfo>, address: string, now: nat)
    requires OneLeaderEach(image) && ReportApplied(image, infos, address, now).Reported?
    ensures OneLeaderEach(ReportApplied(image, infos, address, now).image)
  {
    hide OneLeaderEach, InfosApplied, Ticked, LeadersApplied;
    var synced := InfosApplied(image, infos, now).image;
    InfosKeepOne(image, infos, now);
    TicksKeepOne(synced, infos, now);
    LeadersKeepOne(Ticked(synced, infos, now), infos);
  }

  // Over any sequence of reports at most one replica of an imaged shard leads.
  lemma {:induction false} ReportsKeepOne(reports: seq<Report>)
    requires ReportsApplied(reports).Reported?
    ensures OneLeaderEach(ReportsApplied(reports).image)
  {
    hide ReportApplied;
    if reports != [] {
      var n := |reports| - 1;
      ReportsKeepOne(reports[..n]);
      ReportKeepsOne(ReportsApplied(reports[..n]).image, reports[n].infos, reports[n].address, reports[n].lastTick);
    }
  }

  lemma UpdateKeepsOne(d: DbState, u: Update)
    requires OneLeaderEach(d.image) && UpdateApplied(d, u).DbOk?
    ensures OneLeaderEach(UpdateApplied(d, u).db.image)
  {
    hide OneLeaderEach, ReportApplied, LaunchedShards, HasLaunch, Delivered;
    if u.NodeHostUpdate? {
      ReportKeepsOne(d.image, u.nhi.shardInfo, u.nhi.raftAddress, d.tick);
    }
  }

  // Nor over any log.
  lemma {:induction false} LogKeepsOne(log: seq<Update>)
    requires LogApplied(log).DbOk?
    ensures OneLeaderEach(LogApplied(log).db.image)
  {
    hide UpdateApplied;
    if log != [] {
      LogKeepsOne(log[..|log| - 1]);
      UpdateKeepsOne(LogApplied(log[..|log| - 1]).db, log[|log| - 1]);
    }
  }

  // ----- who leads after a report

  lemma {:induction false} LeadersAfterLast(image: Image, infos: seq<ShardInfo>, k: nat)
    requires OneLeaderEach(image) && k < |infos| && Counts(image, infos[k])
    requires forall j :: k < j < |infos| ==> infos[j].shardId != infos[k].shardId
    ensures var s, r, image' := infos[k].shardId, infos[k].replicaId, LeadersApplied(image, infos);
            && s in image' && r in image'[s].replicas && (image'[s].replicas[r].isLeader <==> infos[k].isLeader)
    decreases |infos|
  {
    var n, ci := |infos| - 1, infos[|infos| - 1];
    var before := LeadersApplied(image, infos[..n]);
    LeadersKeepOne(image, infos[..n]);
    FlagsTakenOver(before, ci);
    hide LeaderApplied, OneLeaderEach;
    if k == n {
      LeadersSame(image, infos[..n]);
    } else {
      LeadersAfterLast(image, infos[..n], k);
    }
  }

  // After a report a replica that its last entry for the shard names leads exactly if the entry says
  // so, if the record is no newer than the entry; and then no other replica leads.
  lemma LeaderAfterReport(image: Image, infos: seq<ShardInfo>, address: string, now: nat, k: nat)
    requires OneLeaderEach(image) && ReportApplied(image, infos, address, now).Reported?
    requires k < |infos| && forall j :: k < j < |infos| ==> infos[j].shardId != infos[k].shardId
    requires Counts(ReportApplied(image, infos, address, now).image, infos[k])
    ensures var c, r := ReportApplied(image, infos, address, now).image[infos[k].shardId], infos[k].replicaId;
            && (c.replicas[r].isLeader <==> infos[k].isLeader)
            && (infos[k].isLeader ==> forall q :: q in c.replicas && c.replicas[q].isLeader ==> q == r)
  {
    var synced := InfosApplied(image, infos, now).image;
    InfosKeepOne(image, infos, now);
    TicksKeepOne(synced, infos, now);
    LeadersSame(Ticked(synced, infos, now), infos);
    hide InfosApplied, Ticked, LeadersApplied;
    LeadersAfterLast(Ticked(synced, infos, now), infos, k);
    ReportKeepsOne(image, infos, address, now);
  }
}
