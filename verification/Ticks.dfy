// Ticks in the database never run ahead of its own tick, so the unsigned differences that decide
// who has failed never wrap around.
module Ticks {
  import opened Basics
  import opened ShardImage
  import opened Database

  ghost predicate RecordInTime(c: ShardRecord, now: nat)
  {
    forall r :: r in c.replicas ==> c.replicas[r].tick <= now && c.replicas[r].firstObserved <= now
  }

  ghost predicate ImageInTime(image: Image, now: nat)
  {
    forall s :: s in image ==> RecordInTime(image[s], now)
  }

  ghost predicate InTime(d: DbState)
  {
    ImageInTime(d.image, d.tick) && forall a :: a in d.hosts ==> d.hosts[a].tick <= d.tick
  }

  lemma InfoInTime(image: Image, ci: ShardInfo, now: nat)
    requires ImageInTime(image, now) && InfoApplied(image, ci, now).Updated?
    ensures ImageInTime(InfoApplied(image, ci, now).image, now)
  {
    hide KillRequired, DistinctAddresses;
    if !ci.pending && !ci.incomplete && ci.shardId in image && SyncedShard(image[ci.shardId], ci, now).Synced? {
      assert RecordInTime(image[ci.shardId], now);
    }
  }

  lemma {:induction false} InfosInTime(image: Image, infos: seq<ShardInfo>, now: nat)
    requires ImageInTime(image, now) && InfosApplied(image, infos, now).Updated?
    ensures ImageInTime(InfosApplied(image, infos, now).image, now)
  {
    hide InfoApplied, ImageInTime;
    if infos != [] {
      InfosInTime(image, infos[..|infos| - 1], now);
      InfoInTime(InfosApplied(image, infos[..|infos| - 1], now).image, infos[|infos| - 1], now);
    }
  }

  lemma TickedInTime(image: Image, infos: seq<ShardInfo>, now: nat)
    requires ImageInTime(image, now)
    ensures ImageInTime(Ticked(image, infos, now), now)
  {
    hide Reports;
    forall s | s in image
      ensures RecordInTime(Ticked(image, infos, now)[s], now)
    {
      assert RecordInTime(image[s], now);
    }
  }

  lemma LeaderInTime(image: Image, ci: ShardInfo, now: nat)
    requires ImageInTime(image, now)
    ensures ImageInTime(LeaderApplied(image, ci), now)
  {
    forall s | s in image
      ensures RecordInTime(LeaderApplied(image, ci)[s], now)
    {
      assert RecordInTime(image[s], now);
    }
  }

  lemma {:induction false} LeadersInTime(image: Image, infos: seq<ShardInfo>, now: nat)
    requires ImageInTime(image, now)
    ensures ImageInTime(LeadersApplied(image, infos), now)
  {
    hide LeaderApplied, ImageInTime;
    if infos != [] {
      LeadersInTime(image, infos[..|infos| - 1], now);
      LeaderInTime(LeadersApplied(image, infos[..|infos| - 1]), infos[|infos| - 1], now);
    }
  }

  lemma ReportInTime(image: Image, infos: seq<ShardInfo>, address: string, now: nat)
    requires ImageInTime(image, now) && ReportApplied(image, infos, address, now).Reported?
    ensures ImageInTime(ReportApplied(image, infos, address, now).image, now)
  {
    hide ImageInTime, InfosApplied, Ticked, LeadersApplied;
    var synced := InfosApplied(image, infos, now).image;
    InfosInTime(image, infos, now);
    TickedInTime(synced, infos, now);
    LeadersInTime(Ticked(synced, infos, now), infos, now);
  }

  lemma LaterInTime(image: Image, now: nat, later: nat)
    requires ImageInTime(image, now) && now <= later
    ensures ImageInTime(image, later)
  {
    forall s | s in image
      ensures RecordInTime(image[s], later)
    {
      assert RecordInTime(image[s], now);
    }
  }

  lemma UpdateInTime(d: DbState, u: Update)
    requires InTime(d) && UpdateApplied(d, u).DbOk?
    ensures InTime(UpdateApplied(d, u).db) && d.tick <= UpdateApplied(d, u).db.tick
  {
    hide ImageInTime, ReportApplied, LaunchedShards, HasLaunch, Delivered;
    match u {
      case NodeHostUpdate(nhi) => ReportInTime(d.image, nhi.shardInfo, nhi.raftAddress, d.tick);
      case TickUpdate => LaterInTime(d.image, d.tick, d.tick + TICK_INTERVAL_SECOND);
      case _ =>
    }
  }

  lemma EmptyInTime()
    ensures InTime(EMPTY_DB)
  {}

  lemma {:induction false} LogInTime(log: seq<Update>)
    requires LogApplied(log).DbOk?
    ensures InTime(LogApplied(log).db)
  {
    hide UpdateApplied, InTime;
    if log == [] {
      assert InTime(EMPTY_DB) by { EmptyInTime(); }
    } else {
      LogInTime(log[..|log| - 1]);
      UpdateInTime(LogApplied(log[..|log| - 1]).db, log[|log| - 1]);
    }
  }

  function TickCount(log: seq<Update>): nat
  {
    if log == [] then 0 else TickCount(log[..|log| - 1]) + if log[|log| - 1].TickUpdate? then 1 else 0
  }

  lemma TickMoves(d: DbState, u: Update)
    requires UpdateApplied(d, u).DbOk?
    ensures UpdateApplied(d, u).db.tick == d.tick + if u.TickUpdate? then 5 else 0
  {
    hide ReportApplied, LaunchedShards, HasLaunch, Delivered;
  }

  // The database tick counts the tick updates, five for each.
  lemma {:induction false} TickIsCount(log: seq<Update>)
    requires LogApplied(log).DbOk?
    ensures LogApplied(log).db.tick == 5 * TickCount(log)
  {
    hide UpdateApplied;
    if log != [] {
      TickIsCount(log[..|log| - 1]);
      TickMoves(LogApplied(log[..|log| - 1]).db, log[|log| - 1]);
    }
  }

  lemma NoWrap(lastTick: nat, now: nat)
    requires lastTick <= now < TWO_64
    ensures EntityFailed(lastTick, now) <==> now > lastTick + NODE_HOST_TTL
  {}

  // After any log a replica, or a host, counts as failed exactly when more than the allowed time
  // has passed since it was last heard of. A replica that was never heard of waits to be started, or
  // has failed if it was first observed at tick 0.
  lemma FailedMeansSilent(log: seq<Update>, s: nat, r: nat, a: string)
    requires LogApplied(log).DbOk? && LogApplied(log).db.tick < TWO_64
    ensures var d := LogApplied(log).db;
            && (s in d.image && r in d.image[s].replicas && d.image[s].replicas[r].tick > 0 ==>
                  (d.image[s].replicas[r].Failed(d.tick) <==> d.tick > d.image[s].replicas[r].tick + NODE_HOST_TTL)
                  && (d.image[s].replicas[r].Ok(d.tick) <==> d.tick <= d.image[s].replicas[r].tick + NODE_HOST_TTL))
            && (s in d.image && r in d.image[s].replicas && d.image[s].replicas[r].tick == 0 ==>
                  (d.image[s].replicas[r].Failed(d.tick) <==> d.image[s].replicas[r].firstObserved == 0)
                  && (d.image[s].replicas[r].Waiting(d.tick) <==> d.image[s].replicas[r].firstObserved > 0))
            && (a in d.hosts ==> (d.hosts[a].Available(d.tick) <==> d.tick <= d.hosts[a].tick + NODE_HOST_TTL))
  {
    LogInTime(log);
    hide LogApplied, EntityFailed;
    var d := LogApplied(log).db;
    if s in d.image && r in d.image[s].replicas {
      assert RecordInTime(d.image[s], d.tick);
      NoWrap(d.image[s].replicas[r].tick, d.tick);
    }
    if a in d.hosts {
      NoWrap(d.hosts[a].tick, d.tick);
    }
  }
}
