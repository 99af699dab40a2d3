// What the database holds of a host, read off the log: its last report, its last report of what it
// has on disk, and where the image had its shards since.
module HostRecords {
  import opened Basics
  import opened ShardImage
  import opened HostImage
  import opened Scheduler
  import opened Database
  import opened Ticks

  // Entry i is the last report in which host a told what it has on disk.
  ghost predicate LastDiskReport(log: seq<Update>, i: nat, a: string)
  {
    && ReportsFrom(log, i, a) && log[i].nhi.plogInfoIncluded
    && forall j: nat :: i < j < |log| && ReportsFrom(log, j, a) ==> !log[j].nhi.plogInfoIncluded
  }

  // Replicas of shard s were imaged at a after entry j.
  ghost predicate ImagedAfter(log: seq<Update>, j: nat, a: string, s: nat)
  {
    && j < |log| && log[j].NodeHostUpdate? && LogApplied(log[..j + 1]).DbOk?
    && var image := LogApplied(log[..j + 1]).db.image;
       s in image && exists r :: r in image[s].replicas && image[s].replicas[r].address == a
  }

  // Shard s is in the last report, entry i, or was imaged at a then or later.
  ghost predicate ToldOf(log: seq<Update>, i: nat, a: string, s: nat)
  {
    i < |log| && log[i].NodeHostUpdate? && (s in log[i].nhi.shardIdList || exists j: nat :: i <= j && ImagedAfter(log, j, a, s))
  }

  ghost predicate DiskOk(log: seq<Update>, a: string, disk: seq<(nat, nat)>)
  {
    && (forall i: nat :: LastDiskReport(log, i, a) ==> disk == log[i].nhi.plogInfo)
    && ((forall i: nat :: !LastDiskReport(log, i, a)) ==> disk == [])
  }

  // The last report, entry i, is what the entry of host a was made from.
  ghost predicate EntryOk(log: seq<Update>, i: nat, a: string, h: HostSpec)
  {
    && i < |log| && log[i].NodeHostUpdate? && LogApplied(log[..i]).DbOk? && h.tick == LogApplied(log[..i]).db.tick
    && h.address == a && h.region == log[i].nhi.region && forall s :: s in h.shards <==> ToldOf(log, i, a, s)
  }

  ghost predicate HostOk(log: seq<Update>, a: string)
  {
    && LogApplied(log).DbOk?
    && var hosts := LogApplied(log).db.hosts;
       && (a in hosts <==> exists i: nat :: LastReport(log, i, a))
       && (a !in hosts ==> DiskOk(log, a, []))
       && (a in hosts ==> DiskOk(log, a, hosts[a].persistentLog))
       && forall i: nat :: LastReport(log, i, a) && a in hosts ==> EntryOk(log, i, a, hosts[a])
  }

  // ----- one update

  lemma OtherUpdate(d: DbState, u: Update)
    requires UpdateApplied(d, u).DbOk? && !u.NodeHostUpdate?
    ensures UpdateApplied(d, u).db.hosts == d.hosts
  {
    hide LaunchedShards, HasLaunch, AllLaunch, Delivered, KVStore.KVApplied;
  }

  lemma OwnReport(d: DbState, nhi: NodeHostInfo)
    requires UpdateApplied(d, NodeHostUpdate(nhi)).DbOk?
    ensures var a, d' := nhi.raftAddress, UpdateApplied(d, NodeHostUpdate(nhi)).db;
            && a in d'.hosts && d'.hosts[a].region == nhi.region && d'.hosts[a].tick == d.tick
            && d'.hosts[a].address == (if a in d.hosts then d.hosts[a].address else a)
            && d'.hosts[a].rpcAddress == (if a in d.hosts then d.hosts[a].rpcAddress else nhi.rpcAddress)
            && d'.hosts[a].persistentLog == (if nhi.plogInfoIncluded then nhi.plogInfo
                                             else if a in d.hosts then d.hosts[a].persistentLog else [])
            && (forall s :: s in d'.hosts[a].shards <==> s in nhi.shardIdList || s in ShardsAt(d'.image, a))
  {
    StoredIs(d, nhi);
    hide ReportApplied, ShardsAt, LaunchedShards, ReportStored;
  }

  lemma OtherReport(d: DbState, nhi: NodeHostInfo, a: string)
    requires UpdateApplied(d, NodeHostUpdate(nhi)).DbOk? && nhi.raftAddress != a
    ensures var d' := UpdateApplied(d, NodeHostUpdate(nhi)).db;
            && (a in d'.hosts <==> a in d.hosts)
            && (a in d.hosts ==> d'.hosts[a] == d.hosts[a].(shards := d.hosts[a].shards + ShardsAt(d'.image, a)))
  {
    StoredIs(d, nhi);
    hide ReportApplied, ShardsAt, LaunchedShards, ReportStored, IdSet;
  }

  // ----- one entry more

  lemma DiskStep(log: seq<Update>, a: string)
    requires log != []
    ensures var n := |log| - 1;
            if ReportsFrom(log, n, a) && log[n].nhi.plogInfoIncluded then forall i: nat :: LastDiskReport(log, i, a) <==> i == n
            else forall i: nat :: LastDiskReport(log, i, a) <==> LastDiskReport(log[..n], i, a)
  {
    var n := |log| - 1;
    forall i: nat | i < n
      ensures ReportsFrom(log, i, a) <==> ReportsFrom(log[..n], i, a)
      ensures log[i] == log[..n][i]
    {
    }
    forall i: nat | !(ReportsFrom(log, n, a) && log[n].nhi.plogInfoIncluded)
      ensures LastDiskReport(log, i, a) <==> LastDiskReport(log[..n], i, a)
    {
      if LastDiskReport(log, i, a) {
        assert forall j: nat :: i < j < n && ReportsFrom(log[..n], j, a) ==> ReportsFrom(log, j, a);
      }
      if LastDiskReport(log[..n], i, a) {
        assert forall j: nat :: i < j < n && ReportsFrom(log, j, a) ==> ReportsFrom(log[..n], j, a);
      }
    }
  }

  lemma LastDiskBound(log: seq<Update>, a: string)
    ensures forall i: nat :: LastDiskReport(log, i, a) ==> i < |log|
  {}

  lemma DiskMoves(log: seq<Update>, a: string, disk: seq<(nat, nat)>)
    requires log != [] && DiskOk(log[..|log| - 1], a, disk)
    ensures var n := |log| - 1;
            DiskOk(log, a, if ReportsFrom(log, n, a) && log[n].nhi.plogInfoIncluded then log[n].nhi.plogInfo else disk)
  {
    var n := |log| - 1;
    DiskStep(log, a);
    LastDiskBound(log[..n], a);
    hide LastDiskReport;
    if ReportsFrom(log, n, a) && log[n].nhi.plogInfoIncluded {
      assert LastDiskReport(log, n, a);
    }
  }

  lemma ToldStep(log: seq<Update>, i: nat, a: string, s: nat)
    requires log != [] && i < |log| - 1
    ensures var n := |log| - 1; ToldOf(log, i, a, s) <==> ToldOf(log[..n], i, a, s) || (log[i].NodeHostUpdate? && ImagedAfter(log, n, a, s))
  {
    hide LogApplied;
    var n := |log| - 1;
    forall j: nat | j < n
      ensures ImagedAfter(log, j, a, s) <==> ImagedAfter(log[..n], j, a, s)
    {
      assert log[..n][..j + 1] == log[..j + 1];
    }
  }

  lemma LastImaged(log: seq<Update>, a: string, s: nat)
    requires log != [] && LogApplied(log).DbOk?
    ensures var n := |log| - 1;
            ImagedAfter(log, n, a, s) <==> log[n].NodeHostUpdate? && s in ShardsAt(LogApplied(log).db.image, a)
  {
    hide LogApplied;
    assert log[..|log| - 1 + 1] == log;
  }

  // An entry that is not a report from a.
  lemma EntryStays(log: seq<Update>, i: nat, a: string, h: HostSpec, h': HostSpec)
    requires log != [] && LogApplied(log).DbOk? && EntryOk(log[..|log| - 1], i, a, h)
    requires h' == h.(shards := h'.shards)
    requires h'.shards == h.shards + if log[|log| - 1].NodeHostUpdate? then ShardsAt(LogApplied(log).db.image, a) else {}
    ensures EntryOk(log, i, a, h')
  {
    hide LogApplied, ToldOf, ImagedAfter, ShardsAt;
    var n := |log| - 1;
    assert log[..n][..i] == log[..i] && log[..n][i] == log[i];
    forall s
      ensures s in h'.shards <==> ToldOf(log, i, a, s)
    {
      ToldStep(log, i, a, s);
      LastImaged(log, a, s);
    }
  }

  lemma ImagedBound(log: seq<Update>, a: string, s: nat)
    ensures forall j: nat :: ImagedAfter(log, j, a, s) ==> j < |log|
  {}

  lemma EntryMade(log: seq<Update>, a: string, h: HostSpec)
    requires log != [] && LogApplied(log).DbOk? && ReportsFrom(log, |log| - 1, a) && LogApplied(log[..|log| - 1]).DbOk?
    requires var n := |log| - 1;
             && h.tick == LogApplied(log[..n]).db.tick && h.address == a && h.region == log[n].nhi.region
             && forall s :: s in h.shards <==> s in log[n].nhi.shardIdList || s in ShardsAt(LogApplied(log).db.image, a)
    ensures EntryOk(log, |log| - 1, a, h)
  {
    hide LogApplied, ImagedAfter, ShardsAt;
    var n := |log| - 1;
    forall s
      ensures s in h.shards <==> ToldOf(log, n, a, s)
    {
      LastImaged(log, a, s);
      ImagedBound(log, a, s);
    }
  }

  lemma HostStepOther(log: seq<Update>, a: string)
    requires log != [] && LogApplied(log).DbOk? && HostOk(log[..|log| - 1], a) && !ReportsFrom(log, |log| - 1, a)
    ensures HostOk(log, a)
  {
    var n := |log| - 1;
    var d, d' := LogApplied(log[..n]).db, LogApplied(log).db;
    assert LogApplied(log) == UpdateApplied(d, log[n]);
    hide UpdateApplied, LogApplied, ShardsAt, LastReport, LastDiskReport, EntryOk, DiskOk;
    LastReportStep(log, a);
    if log[n].NodeHostUpdate? {
      OtherReport(d, log[n].nhi, a);
    } else {
      OtherUpdate(d, log[n]);
    }
    DiskMoves(log, a, if a in d.hosts then d.hosts[a].persistentLog else []);
    forall i: nat | LastReport(log, i, a) && a in d'.hosts
      ensures EntryOk(log, i, a, d'.hosts[a])
    {
      EntryStays(log, i, a, d.hosts[a], d'.hosts[a]);
    }
    if a in d.hosts {
      var i: nat :| LastReport(log[..n], i, a);
      assert LastReport(log, i, a);
    }
  }

  lemma OwnAddress(log: seq<Update>, a: string)
    requires HostOk(log, a)
    ensures a in LogApplied(log).db.hosts ==> LogApplied(log).db.hosts[a].address == a
  {
    hide LogApplied, LastReport, DiskOk, ToldOf;
    if a in LogApplied(log).db.hosts {
      var i: nat :| LastReport(log, i, a);
      assert EntryOk(log, i, a, LogApplied(log).db.hosts[a]);
    }
  }

  lemma HostStepOwn(log: seq<Update>, a: string)
    requires log != [] && LogApplied(log).DbOk? && HostOk(log[..|log| - 1], a) && ReportsFrom(log, |log| - 1, a)
    ensures HostOk(log, a)
  {
    var n := |log| - 1;
    var d, d' := LogApplied(log[..n]).db, LogApplied(log).db;
    assert LogApplied(log) == UpdateApplied(d, log[n]);
    hide UpdateApplied, LogApplied, ShardsAt, LastReport, LastDiskReport, EntryOk, DiskOk;
    OwnAddress(log[..n], a);
    LastReportStep(log, a);
    OwnReport(d, log[n].nhi);
    DiskMoves(log, a, if a in d.hosts then d.hosts[a].persistentLog else []);
    EntryMade(log, a, d'.hosts[a]);
    assert LastReport(log, n, a);
  }

  lemma NoHost(a: string)
    ensures HostOk([], a)
  {}

  // After any log a host is known exactly if it reported; its region and its tick are those of its last
  // report, what it has on disk is what it last told of that, and it is listed with the shards of its
  // last report and those imaged at it since.
  lemma {:induction false} HostTracksLog(log: seq<Update>, a: string)
    requires LogApplied(log).DbOk?
    ensures HostOk(log, a)
  {
    hide UpdateApplied, HostOk;
    if log == [] {
      NoHost(a);
    } else {
      HostTracksLog(log[..|log| - 1], a);
      if ReportsFrom(log, |log| - 1, a) {
        HostStepOwn(log, a);
      } else {
        HostStepOther(log, a);
      }
    }
  }

  // ----- the address for calls

  ghost predicate FirstReport(log: seq<Update>, i: nat, a: string)
  {
    ReportsFrom(log, i, a) && forall j: nat :: j < i ==> !ReportsFrom(log, j, a)
  }

  ghost predicate RpcOk(log: seq<Update>, a: string)
  {
    && LogApplied(log).DbOk?
    && var hosts := LogApplied(log).db.hosts;
       && (a in hosts <==> exists i: nat :: ReportsFrom(log, i, a))
       && forall i: nat :: FirstReport(log, i, a) && a in hosts ==> hosts[a].rpcAddress == log[i].nhi.rpcAddress
  }

  lemma FirstReportStep(log: seq<Update>, a: string)
    requires log != []
    ensures var n := |log| - 1;
            && (forall i: nat :: ReportsFrom(log, i, a) <==> ReportsFrom(log[..n], i, a) || (i == n && ReportsFrom(log, n, a)))
            && (forall i: nat :: FirstReport(log, i, a) && i != n ==> FirstReport(log[..n], i, a) && log[..n][i] == log[i])
            && (FirstReport(log, n, a) ==> forall i: nat :: !ReportsFrom(log[..n], i, a))
  {}

  lemma RpcMoves(d: DbState, u: Update, a: string)
    requires UpdateApplied(d, u).DbOk?
    ensures var d' := UpdateApplied(d, u).db;
            && (a in d'.hosts <==> a in d.hosts || (u.NodeHostUpdate? && u.nhi.raftAddress == a))
            && (a in d'.hosts ==> d'.hosts[a].rpcAddress == if a in d.hosts then d.hosts[a].rpcAddress else u.nhi.rpcAddress)
  {
    hide UpdateApplied;
    if !u.NodeHostUpdate? {
      OtherUpdate(d, u);
    } else if u.nhi.raftAddress == a {
      OwnReport(d, u.nhi);
    } else {
      OtherReport(d, u.nhi, a);
    }
  }

  // Calls go to the address of the first report: later ones do not change it.
  lemma {:induction false} RpcTracksLog(log: seq<Update>, a: string)
    requires LogApplied(log).DbOk?
    ensures RpcOk(log, a)
  {
    if log != [] {
      var n := |log| - 1;
      assert LogApplied(log) == UpdateApplied(LogApplied(log[..n]).db, log[n]);
      RpcTracksLog(log[..n], a);
      FirstReportStep(log, a);
      RpcMoves(LogApplied(log[..n]).db, log[n], a);
      hide UpdateApplied, LogApplied, FirstReport;
    }
  }

  // ----- restoring

  // A replica is brought back only on a host heard of lately that told, when it last told of its disk,
  // that it has the replica's log.
  lemma RestoredFromDisk(log: seq<Update>, ctx: Context, q: Request) returns (i: nat, j: nat)
    requires LogApplied(log).DbOk? && ContextOf(ctx, LogApplied(log).db) && LogApplied(log).db.tick < TWO_64
    requires MayRestore(ctx, q)
    ensures LastReport(log, i, q.raftAddress) && LogApplied(log[..i]).DbOk?
    ensures LogApplied(log).db.tick <= LogApplied(log[..i]).db.tick + NODE_HOST_TTL
    ensures LastDiskReport(log, j, q.raftAddress) && (q.shardId, q.instantiateReplicaId) in log[j].nhi.plogInfo
  {
    var a := q.raftAddress;
    HostTracksLog(log, a);
    FailedMeansSilent(log, q.shardId, q.instantiateReplicaId, a);
    hide LogApplied, LastReport, LastDiskReport, FailedIds, RestoreNeeded, Restorable;
    i :| LastReport(log, i, a);
    assert DiskOk(log, a, ctx.hosts[a].persistentLog) && ctx.hosts[a].persistentLog != [];
    j :| LastDiskReport(log, j, a);
  }
}
