// The launch deadline over a log: an accepted launch sets it, the report after which every shard is
// up lifts it, and the first tick past it takes the database down.
module Deadline {
  import opened ShardImage
  import opened HostImage
  import opened Database

  // Every replica of the imaged shard has been heard of.
  ghost predicate HeardInFull(image: Image, s: nat)
  {
    s in image && forall r :: r in image[s].replicas ==> image[s].replicas[r].tick > 0
  }

  // As many shards have been heard of in full as are defined.
  ghost predicate AllUp(d: DbState)
  {
    exists up: set<nat> :: (forall s :: s in up <==> HeardInFull(d.image, s)) && |up| == |d.shards|
  }

  // ----- records carry the id of their shard

  ghost predicate Keyed(image: Image)
  {
    forall s :: s in image ==> image[s].shardId == s
  }

  lemma {:induction false} InfosKeyed(image: Image, infos: seq<ShardInfo>, now: nat)
    requires Keyed(image) && InfosApplied(image, infos, now).Updated?
    ensures Keyed(InfosApplied(image, infos, now).image)
  {
    hide KillRequired, DistinctAddresses, Resynced;
    if infos != [] {
      InfosKeyed(image, infos[..|infos| - 1], now);
    }
  }

  lemma {:induction false} LeadersKeyed(image: Image, infos: seq<ShardInfo>)
    requires Keyed(image)
    ensures Keyed(LeadersApplied(image, infos))
  {
    if infos != [] {
      LeadersKeyed(image, infos[..|infos| - 1]);
    }
  }

  lemma ReportKeyed(image: Image, infos: seq<ShardInfo>, address: string, now: nat)
    requires Keyed(image) && ReportApplied(image, infos, address, now).Reported?
    ensures Keyed(ReportApplied(image, infos, address, now).image)
  {
    hide InfosApplied, LeadersApplied, Reports;
    var synced := InfosApplied(image, infos, now).image;
    InfosKeyed(image, infos, now);
    LeadersKeyed(Ticked(synced, infos, now), infos);
  }

  lemma UpdateKeyed(d: DbState, u: Update)
    requires Keyed(d.image) && UpdateApplied(d, u).DbOk?
    ensures Keyed(UpdateApplied(d, u).db.image)
  {
    hide Keyed, ReportApplied, LaunchedShards, HasLaunch, Delivered;
    if u.NodeHostUpdate? {
      ReportKeyed(d.image, u.nhi.shardInfo, u.nhi.raftAddress, d.tick);
    }
  }

  lemma {:induction false} LogKeyed(log: seq<Update>)
    requires LogApplied(log).DbOk?
    ensures Keyed(LogApplied(log).db.image)
  {
    hide UpdateApplied;
    if log != [] {
      LogKeyed(log[..|log| - 1]);
      UpdateKeyed(LogApplied(log[..|log| - 1]).db, log[|log| - 1]);
    }
  }

  // What the database counts is what has been heard of in full.
  lemma CountedIsUp(d: DbState)
    requires Keyed(d.image)
    ensures |LaunchedShards(d.image)| == |d.shards| <==> AllUp(d)
  {
    assert forall s :: s in LaunchedShards(d.image) <==> HeardInFull(d.image, s);
    if up: set<nat> :| (forall s :: s in up <==> HeardInFull(d.image, s)) && |up| == |d.shards| {
      assert up == LaunchedShards(d.image);
    }
  }

  // ----- the deadline

  // Entry i is the launch batch that was accepted.
  ghost predicate LaunchAt(log: seq<Update>, i: nat)
  {
    && i < |log| && log[i].RequestsUpdate? && LogApplied(log[..i]).DbOk?
    && (exists k :: 0 <= k < |log[i].reqs| && IsLaunch(log[i].reqs[k])) && LAUNCHED_KEY !in LogApplied(log[..i]).db.kvMap
  }

  // Entry j is a report after which every shard is up.
  ghost predicate UpAt(log: seq<Update>, j: nat)
  {
    j < |log| && log[j].NodeHostUpdate? && LogApplied(log[..j + 1]).DbOk? && AllUp(LogApplied(log[..j + 1]).db)
  }

  // The launch was entry i, and not every shard has been up since.
  ghost predicate Launching(log: seq<Update>, i: nat)
  {
    LaunchAt(log, i) && forall j: nat :: i < j < |log| ==> !UpAt(log, j)
  }

  ghost predicate DeadlineOk(log: seq<Update>)
  {
    && LogApplied(log).DbOk?
    && (forall i: nat :: Launching(log, i) ==> LogApplied(log).db.launchDeadline == LogApplied(log[..i]).db.tick + 120)
    && ((forall i: nat :: !Launching(log, i)) ==> LogApplied(log).db.launchDeadline == 0)
  }

  lemma PrefixLaunch(log: seq<Update>, i: nat)
    requires log != [] && i < |log| - 1
    ensures var n := |log| - 1;
            log[..n][..i] == log[..i] && (LaunchAt(log, i) <==> LaunchAt(log[..n], i))
            && (UpAt(log, i) <==> UpAt(log[..n], i))
  {
    hide LogApplied, AllUp;
    var n := |log| - 1;
    assert log[..n][..i] == log[..i] && log[..n][..i + 1] == log[..i + 1] && log[..n][i] == log[i];
  }

  lemma LaunchingStep(log: seq<Update>, i: nat)
    requires log != [] && i < |log| - 1
    ensures var n := |log| - 1; Launching(log, i) <==> Launching(log[..n], i) && !UpAt(log, n)
  {
    hide LaunchAt, UpAt;
    var n := |log| - 1;
    forall j: nat | j < n
      ensures (LaunchAt(log, j) <==> LaunchAt(log[..n], j)) && (UpAt(log, j) <==> UpAt(log[..n], j))
    {
      PrefixLaunch(log, j);
    }
    assert Launching(log, i) ==> forall j: nat :: i < j < n ==> !UpAt(log[..n], j);
  }

  lemma AcceptsIsLaunch(log: seq<Update>, i: nat)
    ensures LaunchAt(log, i) <==>
              i < |log| && LogApplied(log[..i]).DbOk? && AcceptsLaunch(LogApplied(log[..i]).db, log[i])
  {
    hide LogApplied;
  }

  // One update and the deadline.
  lemma DeadlineMoves(d: DbState, u: Update)
    requires UpdateApplied(d, u).DbOk? && Keyed(d.image)
    ensures var d' := UpdateApplied(d, u).db;
            d'.launchDeadline ==
              if AcceptsLaunch(d, u) then d.tick + 120
              else if u.NodeHostUpdate? && AllUp(d') then 0
              else d.launchDeadline
  {
    hide ReportApplied, HostReported, HostsSynced, AllUp, Delivered, AllLaunch, HasLaunch;
    if u.NodeHostUpdate? {
      var d' := UpdateApplied(d, u).db;
      UpdateKeyed(d, u);
      CountedIsUp(d');
      hide LaunchedShards;
    }
  }

  // Nothing is under way once a launch has been lifted, and no second launch comes.
  lemma OneLaunch(log: seq<Update>, i: nat, j: nat)
    requires LogApplied(log).DbOk? && LaunchAt(log, i) && LaunchAt(log, j)
    ensures i == j
  {
    AcceptsIsLaunch(log, i);
    AcceptsIsLaunch(log, j);
    hide LogApplied, AcceptsLaunch, LaunchAt;
    if i < j {
      LaunchOnce(log, i, j);
    } else if j < i {
      LaunchOnce(log, j, i);
    }
  }

  lemma LaunchStep(log: seq<Update>)
    requires LogApplied(log).DbOk? && log != [] && DeadlineOk(log[..|log| - 1]) && LaunchAt(log, |log| - 1)
    requires LogApplied(log).db.launchDeadline == LogApplied(log[..|log| - 1]).db.tick + 120
    ensures DeadlineOk(log)
  {
    hide LogApplied, LaunchAt, UpAt;
    var n := |log| - 1;
    assert Launching(log, n);
    forall i: nat | Launching(log, i)
      ensures i == n
    {
      OneLaunch(log, i, n);
    }
  }

  lemma LaunchBound(log: seq<Update>, i: nat)
    ensures LaunchAt(log, i) ==> i < |log|
  {}

  lemma OtherStep(log: seq<Update>)
    requires LogApplied(log).DbOk? && log != [] && DeadlineOk(log[..|log| - 1]) && !LaunchAt(log, |log| - 1)
    requires LogApplied(log).db.launchDeadline ==
               if UpAt(log, |log| - 1) then 0 else LogApplied(log[..|log| - 1]).db.launchDeadline
    ensures DeadlineOk(log)
  {
    hide LogApplied, LaunchAt, UpAt, AllUp;
    var n := |log| - 1;
    forall i: nat
      ensures Launching(log, i) ==> i < n
      ensures i < n ==> log[..n][..i] == log[..i] && (Launching(log, i) <==> Launching(log[..n], i) && !UpAt(log, n))
      ensures Launching(log[..n], i) ==> i < n
    {
      LaunchBound(log, i);
      LaunchBound(log[..n], i);
      if i < n {
        assert log[..n][..i] == log[..i];
        LaunchingStep(log, i);
      }
    }
    hide Launching;
  }

  lemma NoDeadline()
    ensures DeadlineOk([])
  {}

  lemma UpIs(log: seq<Update>)
    requires LogApplied(log).DbOk? && log != []
    ensures var n := |log| - 1; UpAt(log, n) <==> log[n].NodeHostUpdate? && AllUp(LogApplied(log).db)
  {
    hide LogApplied, AllUp;
    assert log[..|log| - 1 + 1] == log;
  }

  lemma LaunchIsNoReport(log: seq<Update>)
    ensures forall i: nat :: LaunchAt(log, i) ==> !UpAt(log, i)
  {
    hide LogApplied, AllUp;
  }

  // After any log the deadline is 24 intervals after the tick of the launch, if one was accepted and
  // no report since left every shard up, and 0 otherwise.
  lemma {:induction false} DeadlineLaw(log: seq<Update>)
    requires LogApplied(log).DbOk?
    ensures DeadlineOk(log)
  {
    hide UpdateApplied, LaunchAt, UpAt, DeadlineOk, AllUp, AcceptsLaunch;
    if log == [] {
      NoDeadline();
    } else {
      var n := |log| - 1;
      var d := LogApplied(log[..n]).db;
      DeadlineLaw(log[..n]);
      LogKeyed(log[..n]);
      DeadlineMoves(d, log[n]);
      AcceptsIsLaunch(log, n);
      UpIs(log);
      LaunchIsNoReport(log);
      if LaunchAt(log, n) {
        LaunchStep(log);
      } else {
        OtherStep(log);
      }
    }
  }

  // A tick takes the database down exactly when it passes the deadline of a launch under way.
  lemma TickPastDeadline(log: seq<Update>)
    requires LogApplied(log).DbOk?
    ensures LogApplied(log + [TickUpdate]).DbPanic? <==>
              exists i: nat :: Launching(log, i) && LogApplied(log).db.tick + 5 > LogApplied(log[..i]).db.tick + 120
  {
    DeadlineLaw(log);
    assert (log + [TickUpdate])[..|log|] == log;
    assert LogApplied(log + [TickUpdate]) == UpdateApplied(LogApplied(log).db, TickUpdate);
    hide LogApplied, Launching;
  }
}
