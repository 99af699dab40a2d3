// The repair protocol as a whole: hosts that report, a replicated database that takes the reports
// in, schedulers that work on snapshots of it, and Raft groups that apply fenced changes. Any step
// may be delayed, repeated or lost: messages and snapshots stay around for ever.
module Protocol {
  import opened ShardImage
  import opened HostImage
  import opened KVStore
  import opened Scheduler
  import opened Database
  import opened Truth
  import opened Reports

  datatype State = State(
    truth: Histories,                   // the memberships the Raft groups went through
    db: DbState,                        // the database now
    past: set<DbState>,                 // every state the database has been in, now included
    requests: set<Request>,             // every request ever handed out
    reports: set<NodeHostInfo>,         // every report ever sent
    running: set<(string, nat, nat)>)   // (host, shard, replica) of the replicas that are running

  datatype Step =
    | Log(u: Update)
    | Launch(ctx: Context, plans: seq<seq<Request>>, first: Histories)
    | Schedule(ctx: Context, batch: seq<Request>)
    | Send(nhi: NodeHostInfo, infos: seq<ShardInfo>, seen: DbState)
    | Change(q: Request, index: nat)
    | Start(q: Request)
    | Stop(address: string, s: nat, r: nat)

  // The membership that starting `members` at `addresses` gives.
  ghost function Zip(members: seq<nat>, addresses: seq<string>): map<nat, string>
    requires |members| == |addresses|
  {
    var n := |members| - 1;
    if members == [] then map[] else Zip(members[..n], addresses[..n])[members[n] := addresses[n]]
  }

  ghost predicate PlanAt(ctx: Context, def: ShardDef, plan: seq<Request>, addressList: seq<string>, first: Histories)
  {
    && LaunchAddresses(ctx, def, addressList)
    && |plan| == |def.members| && (forall k :: 0 <= k < |plan| ==> Launches(def, addressList, k, plan[k]))
    && def.shardId in first && |first[def.shardId]| == 1 && first[def.shardId][0].index > 0
    && first[def.shardId][0].members == Zip(def.members, addressList)
  }

  ghost predicate PlanGives(ctx: Context, def: ShardDef, plan: seq<Request>, first: Histories)
  {
    exists addressList :: PlanAt(ctx, def, plan, addressList, first)
  }

  // The first configurations are those the launch plans put in place.
  ghost predicate FirstConfigs(ctx: Context, plans: seq<seq<Request>>, first: Histories)
  {
    && |plans| == |ctx.shards|
    && (forall s :: s in first <==> exists k :: 0 <= k < |ctx.shards| && ctx.shards[k].shardId == s)
    && forall k :: 0 <= k < |plans| ==> PlanGives(ctx, ctx.shards[k], plans[k], first)
  }

  // A new replica id has not been used in its shard before.
  ghost predicate FreshId(truth: Histories, q: Request)
  {
    q.kind == ADD && |q.members| == 1 && q.shardId in truth ==>
      forall k: nat :: k < |truth[q.shardId]| ==> q.members[0] !in truth[q.shardId][k].members
  }

  ghost function Last(h: ShardHistory): Config
    requires h != []
  {
    h[|h| - 1]
  }

  // The membership after a fenced change: DELETE takes its replica out, ADD puts it at its address.
  ghost function Changed(members: map<nat, string>, q: Request): map<nat, string>
    requires |q.members| == 1 && (q.kind == ADD ==> |q.addressList| == 1)
  {
    if q.kind == ADD then members[q.members[0] := q.addressList[0]] else members - {q.members[0]}
  }

  // What a replica running on a host can report: it is pending, or it has applied some
  // configuration of its shard.
  ghost predicate CanReport(st: State, address: string, ci: ShardInfo)
  {
    && (address, ci.shardId, ci.replicaId) in st.running && !ci.incomplete
    && InfoTrue(st.truth, ci)
  }

  ghost predicate Enabled(st: State, step: Step)
  {
    match step
    case Log(u) =>
      && UpdateApplied(st.db, u).DbOk?
      && (u.NodeHostUpdate? ==> u.nhi in st.reports)
      && (u.RequestsUpdate? ==> (forall q :: q in u.reqs ==> q in st.requests) && !HasLaunch(u.reqs))
    case Launch(ctx, plans, first) =>
      && (exists d :: d in st.past && ContextOf(ctx, d))
      && DistinctRegions(ctx.regions) && FirstConfigs(ctx, plans, first)
      && AcceptsLaunch(st.db, RequestsUpdate(Flatten(plans)))
      && UpdateApplied(st.db, RequestsUpdate(Flatten(plans))).DbOk?
    case Schedule(ctx, batch) =>
      && (exists d :: d in st.past && ContextOf(ctx, d))
      && forall q :: q in batch ==> (MayRestore(ctx, q) || (MayRepair(ctx, q) && q.kind != KILL) || MayKill(ctx, q))
                                    && FreshId(st.truth, q)
    case Send(nhi, infos, seen) =>
      && seen in st.past
      && (forall ci :: ci in infos ==> CanReport(st, nhi.raftAddress, ci))
      && nhi.shardInfo == SuppressedAll(seen.image, infos)
    case Change(q, index) =>
      && q in st.requests && (q.kind == ADD || q.kind == DELETE)
      && |q.members| == 1 && (q.kind == ADD ==> |q.addressList| == 1)
      && q.shardId in st.truth && st.truth[q.shardId] != []
      && q.confChangeId == Last(st.truth[q.shardId]).index && index > q.confChangeId
    case Start(q) => q in st.requests && q.kind == CREATE
    case Stop(_, _, _) => true
  }

  ghost function DbMoved(st: State, d: DbState): State
  {
    st.(db := d, past := st.past + {d})
  }

  ghost function Next(st: State, step: Step): State
    requires Enabled(st, step)
  {
    match step
    case Log(u) => DbMoved(st, UpdateApplied(st.db, u).db)
    case Launch(ctx, plans, first) =>
      DbMoved(st.(truth := st.truth + first, requests := st.requests + set q | q in Flatten(plans)),
              UpdateApplied(st.db, RequestsUpdate(Flatten(plans))).db)
    case Schedule(ctx, batch) => st.(requests := st.requests + set q | q in batch)
    case Send(nhi, infos, seen) => st.(reports := st.reports + {nhi})
    case Change(q, index) =>
      var h := st.truth[q.shardId];
      st.(truth := st.truth[q.shardId := h + [Config(index, Changed(Last(h).members, q))]])
    case Start(q) => st.(running := st.running + {(q.raftAddress, q.shardId, q.instantiateReplicaId)})
    case Stop(a, s, r) => st.(running := st.running - {(a, s, r)})
  }

  ghost predicate Initial(st: State)
  {
    st == State(map[], EMPTY_DB, {EMPTY_DB}, {}, {}, {})
  }

  // ----- the invariant

  ghost predicate HostsOk(hosts: Hosts, image: Image)
  {
    forall a :: a in hosts ==> hosts[a].address == a && ShardsAt(image, a) <= hosts[a].shards
  }

  ghost predicate DefsOk(truth: Histories, d: DbState)
  {
    && (forall s :: s in d.shards ==> d.shards[s].shardId == s && d.shards[s].members != [])
    && (forall s :: s in d.image ==> s in truth && truth[s] != [] && s in d.shards)
  }

  // What a database state knows is true, and every host is listed with the shards it holds.
  ghost predicate DbTrue(truth: Histories, d: DbState)
  {
    && ImageOk(truth, d.image)
    && HostsOk(d.hosts, d.image)
    && DefsOk(truth, d)
    && forall k :: k in d.kills ==> Gone(truth, k.shardId, k.replicaId)
  }

  // The fence of a DELETE is a configuration above the defined size e that has the replica.
  ghost predicate DeleteAt(h: ShardHistory, k: nat, e: nat, q: Request)
    requires |q.members| == 1
  {
    k < |h| && h[k].index == q.confChangeId && |h[k].members| > e && q.members[0] in h[k].members
  }

  // The fence of an ADD is a configuration not above the defined size without the new host, and the
  // new replica is in no configuration up to it.
  ghost predicate AddAt(h: ShardHistory, k: nat, e: nat, q: Request)
    requires |q.members| == 1 && |q.addressList| == 1
  {
    && k < |h| && h[k].index == q.confChangeId && |h[k].members| <= e
    && q.addressList[0] !in h[k].members.Values
    && forall j: nat :: j <= k ==> q.members[0] !in h[j].members
  }

  // A request in flight still means what it meant when it was made.
  ghost predicate RequestOk(truth: Histories, d: DbState, q: Request)
  {
    match q.kind
    case CREATE => Known(truth, d.image, q.shardId, q.instantiateReplicaId)
    case KILL => |q.members| == 1 && Gone(truth, q.shardId, q.members[0])
    case DELETE =>
      && |q.members| == 1 && q.shardId in truth && q.shardId in d.shards
      && exists k: nat :: DeleteAt(truth[q.shardId], k, |d.shards[q.shardId].members|, q)
    case ADD =>
      && |q.members| == 1 && |q.addressList| == 1 && q.shardId in truth && q.shardId in d.shards
      && exists k: nat :: AddAt(truth[q.shardId], k, |d.shards[q.shardId].members|, q)
  }

  ghost predicate SameDefs(d: DbState, later: DbState)
  {
    forall s :: s in d.shards ==> s in later.shards && later.shards[s] == d.shards[s]
  }

  ghost predicate PastOk(st: State)
  {
    && st.db in st.past
    && forall d :: d in st.past ==> DbTrue(st.truth, d) && ImageLe(d.image, st.db.image) && SameDefs(d, st.db)
  }

  // No id is listed twice.
  ghost predicate DistinctIds(ids: seq<nat>)
  {
    forall i, j :: 0 <= i < j < |ids| ==> ids[i] != ids[j]
  }

  // A shard is launched with the members defined, and is never more than one above that size.
  ghost predicate BandOk(h: ShardHistory, def: ShardDef)
  {
    && h != [] && (forall r :: r in h[0].members <==> r in def.members)
    && forall k: nat :: k < |h| ==> |h[k].members| <= |def.members| + 1
  }

  ghost predicate LaunchedOk(st: State)
  {
    && (LAUNCHED_KEY !in st.db.kvMap ==> st.truth == map[])
    && forall s :: s in st.truth ==> s in st.db.shards && BandOk(st.truth[s], st.db.shards[s])
  }

  ghost predicate RequestsOk(st: State)
  {
    forall q :: q in st.requests ==> RequestOk(st.truth, st.db, q)
  }

  ghost predicate ReportsOk(st: State)
  {
    forall nhi, ci :: nhi in st.reports && ci in nhi.shardInfo ==> InfoOk(st.truth, st.db.image, ci)
  }

  ghost predicate RunningOk(st: State)
  {
    forall a, s, r :: (a, s, r) in st.running ==> Known(st.truth, st.db.image, s, r)
  }

  ghost predicate Inv(st: State)
  {
    TruthOk(st.truth) && PastOk(st) && LaunchedOk(st) && RequestsOk(st) && ReportsOk(st) && RunningOk(st)
  }

  // ----- what growth of the truth and of the image keeps

  lemma RequestStays(truth: Histories, later: Histories, d: DbState, d': DbState, q: Request)
    requires TruthOk(later) && Extends(truth, later) && ImageLe(d.image, d'.image) && ImageOk(later, d'.image) && SameDefs(d, d')
    requires RequestOk(truth, d, q)
    ensures RequestOk(later, d', q)
  {
    hide TruthOk, ImageOk, ImageLe, Gone, Known;
    match q.kind {
      case CREATE => KnownStays(truth, later, d.image, d'.image, q.shardId, q.instantiateReplicaId);
      case KILL => GoneStays(truth, later, q.shardId, q.members[0]);
      case DELETE =>
        var e := |d.shards[q.shardId].members|;
        var k: nat :| DeleteAt(truth[q.shardId], k, e, q);
        assert DeleteAt(later[q.shardId], k, e, q);
      case ADD =>
        var e := |d.shards[q.shardId].members|;
        var k: nat :| AddAt(truth[q.shardId], k, e, q);
        assert AddAt(later[q.shardId], k, e, q);
    }
  }

  lemma DbTrueStays(truth: Histories, later: Histories, d: DbState)
    requires Extends(truth, later) && DbTrue(truth, d)
    ensures DbTrue(later, d)
  {
    hide HostsOk, KeyedRecord;
    forall s | s in d.image
      ensures RecordOk(later, s, d.image[s])
    {
      assert RecordOk(truth, s, d.image[s]);
      WasStays(truth, later, s, d.image[s].index, Members(d.image[s]));
    }
    forall k | k in d.kills
      ensures Gone(later, k.shardId, k.replicaId)
    {
      GoneStays(truth, later, k.shardId, k.replicaId);
    }
  }

  // What is in flight stays right as truth and image grow.
  lemma InFlightStays(st: State, later: Histories, d': DbState)
    requires Inv(st) && TruthOk(later) && Extends(st.truth, later)
    requires ImageLe(st.db.image, d'.image) && ImageOk(later, d'.image) && SameDefs(st.db, d')
    ensures forall q :: q in st.requests ==> RequestOk(later, d', q)
    ensures forall nhi, ci :: nhi in st.reports && ci in nhi.shardInfo ==> InfoOk(later, d'.image, ci)
    ensures forall a, s, r :: (a, s, r) in st.running ==> Known(later, d'.image, s, r)
  {
    hide TruthOk, Extends, ImageOk, ImageLe, Known, Was, RequestOk, SameDefs;
    var image' := d'.image;
    forall q | q in st.requests
      ensures RequestOk(later, d', q)
    {
      RequestStays(st.truth, later, st.db, d', q);
    }
    forall nhi, ci | nhi in st.reports && ci in nhi.shardInfo
      ensures InfoOk(later, image', ci)
    {
      assert InfoOk(st.truth, st.db.image, ci);
      KnownStays(st.truth, later, st.db.image, image', ci.shardId, ci.replicaId);
      if !ci.pending && !ci.incomplete {
        WasStays(st.truth, later, ci.shardId, ci.index, ci.replicas);
      }
    }
    forall a, s, r | (a, s, r) in st.running
      ensures Known(later, image', s, r)
    {
      KnownStays(st.truth, later, st.db.image, image', s, r);
    }
  }

  // The database moves to d', which knows at least as much.
  lemma DbMovedKeeps(st: State, later: Histories, d': DbState)
    requires Inv(st) && TruthOk(later) && Extends(st.truth, later)
    requires DbTrue(later, d') && ImageLe(st.db.image, d'.image) && SameDefs(st.db, d')
    ensures PastOk(DbMoved(st.(truth := later), d'))
  {
    hide TruthOk, Extends, DbTrue;
    var st' := DbMoved(st.(truth := later), d');
    forall d | d in st'.past
      ensures DbTrue(later, d) && ImageLe(d.image, d'.image) && SameDefs(d, d')
    {
      if d in st.past {
        DbTrueStays(st.truth, later, d);
      }
    }
  }

  // ----- a logged update

  lemma ReportedHostsOk(hosts: Hosts, nhi: NodeHostInfo, image: Image)
    requires forall a :: a in hosts ==> hosts[a].address == a
    ensures HostsOk(HostsSynced(HostReported(hosts, nhi), image), image)
  {
    hide ShardsAt;
  }

  lemma BatchLeavesImages(d: DbState, u: Update)
    requires u.RequestsUpdate? && UpdateApplied(d, u).DbOk?
    ensures var d' := UpdateApplied(d, u).db;
            d'.image == d.image && d'.hosts == d.hosts && d'.kills == d.kills && d'.shards == d.shards && SameDefs(d, d')
  {}

  lemma OtherLeaves(d: DbState, u: Update)
    requires !u.NodeHostUpdate? && UpdateApplied(d, u).DbOk?
    requires forall s :: s in d.shards ==> d.shards[s].shardId == s && d.shards[s].members != []
    ensures var d' := UpdateApplied(d, u).db;
            && d'.image == d.image && d'.hosts == d.hosts && d'.kills == d.kills && SameDefs(d, d')
            && forall s :: s in d'.shards ==> d'.shards[s].shardId == s && d'.shards[s].members != []
  {
    hide BatchStored, KVApplied, ReportStored;
    if u.RequestsUpdate? {
      BatchLeavesImages(d, u);
    }
  }

  lemma ImageLeReflexive(image: Image)
    ensures ImageLe(image, image)
  {}

  // Any other update leaves images, hosts and kills alone, and definitions in place.
  lemma OtherDb(truth: Histories, d: DbState, u: Update)
    requires DbTrue(truth, d) && !u.NodeHostUpdate? && UpdateApplied(d, u).DbOk?
    ensures var d' := UpdateApplied(d, u).db;
            DbTrue(truth, d') && ImageLe(d.image, d'.image) && SameDefs(d, d')
  {
    hide ImageOk, Gone, HostsOk, UpdateApplied;
    OtherLeaves(d, u);
    ImageLeReflexive(d.image);
  }

  lemma InfosOk(truth: Histories, image: Image, infos: seq<ShardInfo>)
    requires forall ci :: ci in infos ==> InfoOk(truth, image, ci)
    ensures AllTrue(truth, infos) && AllKnown(truth, image, infos)
  {
    hide InfoTrue, Known;
  }

  lemma HostsKeyed(hosts: Hosts, image: Image)
    requires HostsOk(hosts, image)
    ensures forall a :: a in hosts ==> hosts[a].address == a
  {}

  // Imaged shards have a definition.
  lemma ImagedAreLaunched(st: State, image: Image)
    requires LaunchedOk(st) && ImageOk(st.truth, image)
    ensures forall s :: s in image ==> s in st.truth && st.truth[s] != [] && s in st.db.shards
  {
    forall s | s in image
      ensures s in st.truth
    {
      assert RecordOk(st.truth, s, image[s]);
    }
  }

  // A report.
  lemma ReportDb(truth: Histories, st: State, nhi: NodeHostInfo)
    requires TruthOk(truth) && DbTrue(truth, st.db) && LaunchedOk(st) && truth == st.truth
    requires UpdateApplied(st.db, NodeHostUpdate(nhi)).DbOk?
    requires forall ci :: ci in nhi.shardInfo ==> InfoOk(truth, st.db.image, ci)
    ensures var d' := UpdateApplied(st.db, NodeHostUpdate(nhi)).db;
            DbTrue(truth, d') && ImageLe(st.db.image, d'.image) && SameDefs(st.db, d')
  {
    InfosOk(truth, st.db.image, nhi.shardInfo);
    hide TruthOk, ImageOk, ImageLe, HostsOk, Gone, InfoOk, AllTrue, AllKnown, ReportApplied, HostsSynced, HostReported,
      LaunchedShards, LaunchedOk;
    ReportKeeps(truth, st.db.image, nhi.shardInfo, nhi.raftAddress, st.db.tick);
    HostsKeyed(st.db.hosts, st.db.image);
    var image := ReportApplied(st.db.image, nhi.shardInfo, nhi.raftAddress, st.db.tick).image;
    ReportedHostsOk(st.db.hosts, nhi.(lastTick := st.db.tick), image);
    ImagedAreLaunched(st, image);
  }

  lemma UpdateDb(truth: Histories, st: State, u: Update)
    requires Inv(st) && truth == st.truth && UpdateApplied(st.db, u).DbOk?
    requires u.NodeHostUpdate? ==> forall ci :: ci in u.nhi.shardInfo ==> InfoOk(truth, st.db.image, ci)
    ensures var d' := UpdateApplied(st.db, u).db;
            DbTrue(truth, d') && ImageLe(st.db.image, d'.image) && SameDefs(st.db, d')
  {
    hide TruthOk, ImageOk, Gone, InfoOk, UpdateApplied, RequestsOk, ReportsOk, RunningOk, LaunchedOk, DbTrue, SameDefs, ImageLe;
    assert DbTrue(truth, st.db);
    if u.NodeHostUpdate? {
      ReportDb(truth, st, u.nhi);
    } else {
      OtherDb(truth, st.db, u);
    }
  }

  lemma ImageOfTrue(truth: Histories, d: DbState)
    requires DbTrue(truth, d)
    ensures ImageOk(truth, d.image)
  {}

  lemma LogKeepsLaunched(st: State, u: Update)
    requires LaunchedOk(st) && UpdateApplied(st.db, u).DbOk?
    ensures LaunchedOk(st.(db := UpdateApplied(st.db, u).db))
  {
    hide ReportApplied, HostsSynced, HostReported, LaunchedShards, HasLaunch, Delivered;
    KeyStays(st.db, u, LAUNCHED_KEY);
  }

  lemma LogKeepsInv(st: State, u: Update)
    requires Inv(st) && Enabled(st, Log(u))
    ensures Inv(Next(st, Log(u)))
  {
    hide TruthOk, DbTrue, ImageLe, Known, RequestOk, InfoTrue, UpdateApplied, PastOk;
    if u.NodeHostUpdate? {
      assert forall ci :: ci in u.nhi.shardInfo ==> InfoOk(st.truth, st.db.image, ci);
    }
    var d' := UpdateApplied(st.db, u).db;
    UpdateDb(st.truth, st, u);
    LogKeepsLaunched(st, u);
    DbMovedKeeps(st, st.truth, d');
    assert ImageOk(st.truth, d'.image) by { ImageOfTrue(st.truth, d'); }
    InFlightStays(st, st.truth, d');
  }

  // ----- a report leaves a host

  lemma SendKeepsInv(st: State, nhi: NodeHostInfo, infos: seq<ShardInfo>, seen: DbState)
    requires Inv(st) && Enabled(st, Send(nhi, infos, seen))
    ensures Inv(Next(st, Send(nhi, infos, seen)))
  {
    hide TruthOk, DbTrue, ImageLe, Known, RequestOk, Was, SameDefs;
    forall ci | ci in nhi.shardInfo
      ensures InfoOk(st.truth, st.db.image, ci)
    {
      var i :| 0 <= i < |infos| && nhi.shardInfo[i] == ci;
      assert infos[i] in infos && CanReport(st, nhi.raftAddress, infos[i]);
    }
  }

  lemma StartStopKeepInv(st: State, step: Step)
    requires Inv(st) && Enabled(st, step) && (step.Start? || step.Stop?)
    ensures Inv(Next(st, step))
  {
    hide TruthOk, DbTrue, ImageLe, Known, InfoOk, SameDefs;
    if step.Start? {
      assert RequestOk(st.truth, st.db, step.q);
    }
  }

  // ----- a scheduler hands out requests

  // The size the scheduler expects, and the application it names, are those of the definition.
  lemma ExpectedIsSize(truth: Histories, d: DbState, ctx: Context, s: nat)
    requires ContextOf(ctx, d) && DefsOk(truth, d) && s in d.image
    ensures s in d.shards && ExpectedSize(ctx, s) == |d.shards[s].members| && AppName(ctx, s) == d.shards[s].appName
  {
    var k :| 0 <= k < |ctx.shards| && ctx.shards[k].shardId == s;
    DefIndexFound(ctx.shards, s, k);
  }

  // A replica of an imaged shard is known, also to later images.
  lemma ImagedIsKnown(truth: Histories, image: Image, image': Image, s: nat, r: nat)
    requires ImageOk(truth, image) && ImageLe(image, image') && s in image && r in image[s].replicas
    ensures Known(truth, image', s, r)
  {
    assert RecordOk(truth, s, image[s]);
    var c := image[s];
    var k: nat :| Is(truth[s], k, c.index, Members(c));
    assert r in Members(c);
    assert KnownAt(truth[s], k, image', s, r);
  }

  // The configuration an imaged record stands for.
  lemma ImagedConfig(truth: Histories, d: DbState, s: nat) returns (k: nat)
    requires TruthOk(truth) && ImageOk(truth, d.image) && s in d.image
    ensures s in truth && k < |truth[s]| && HistoryOk(truth[s]) && ConfigOk(truth[s], k)
    ensures truth[s][k] == Config(d.image[s].index, Members(d.image[s]))
    ensures |truth[s][k].members| == |d.image[s].replicas| && truth[s][k].members.Keys == d.image[s].replicas.Keys
  {
    hide NeverBack, SameAddress, Increasing, KeyedRecord;
    var c := d.image[s];
    assert RecordOk(truth, s, c);
    k :| Is(truth[s], k, c.index, Members(c));
    assert HistoryOk(truth[s]);
    assert Members(c).Keys == c.replicas.Keys;
  }

  // Where a DELETE is called for the shard is above its expected size.
  lemma DeleteMeansSize(ctx: Context, q: Request)
    requires MayRepair(ctx, q) && q.kind == DELETE
    ensures var c := ctx.image[q.shardId];
            && |c.replicas| > ExpectedSize(ctx, q.shardId) && |q.members| == 1 && q.confChangeId == c.index
            && q.members[0] in c.replicas
  {
    Partition(ctx.image[q.shardId], ctx.tick);
    hide OkIds, WaitingIds, CreateOf, ExpectedSize, EntityFailed;
  }

  // The configuration a scheduler works on, and the size it expects.
  lemma ContextConfig(truth: Histories, d: DbState, ctx: Context, s: nat) returns (k: nat)
    requires TruthOk(truth) && DbTrue(truth, d) && ContextOf(ctx, d) && s in ctx.image
    ensures s in truth && k < |truth[s]| && s in d.image && ctx.image[s] == d.image[s]
    ensures truth[s][k].index == ctx.image[s].index && truth[s][k].members == Members(d.image[s])
    ensures truth[s][k].members.Keys == ctx.image[s].replicas.Keys && |truth[s][k].members| == |ctx.image[s].replicas|
    ensures s in d.shards && ExpectedSize(ctx, s) == |d.shards[s].members|
  {
    hide HistoryOk, TruthOk, ImageOk, HostsOk, ExpectedSize, Members;
    ExpectedIsSize(truth, d, ctx, s);
    k := ImagedConfig(truth, d, s);
  }

  lemma InContext(ctx: Context, q: Request)
    requires MayRepair(ctx, q)
    ensures q.shardId in ctx.image
  {}

  lemma DeleteIsOk(truth: Histories, d: DbState, ctx: Context, q: Request, d': DbState)
    requires TruthOk(truth) && DbTrue(truth, d) && ContextOf(ctx, d) && SameDefs(d, d')
    requires MayRepair(ctx, q) && q.kind == DELETE
    ensures RequestOk(truth, d', q)
  {
    DeleteMeansSize(ctx, q);
    InContext(ctx, q);
    hide TruthOk, DbTrue, ContextOf, MayRepair, ExpectedSize, Members;
    var k := ContextConfig(truth, d, ctx, q.shardId);
    assert DeleteAt(truth[q.shardId], k, |d.shards[q.shardId].members|, q);
  }

  // Where an ADD is called for the shard is not above its expected size.
  lemma AddMeansSize(ctx: Context, q: Request)
    requires MayRepair(ctx, q) && q.kind == ADD
    ensures var c := ctx.image[q.shardId];
            |c.replicas| <= ExpectedSize(ctx, q.shardId) && |q.members| == 1 && |q.addressList| == 1 && q.confChangeId == c.index
    ensures q.addressList[0] in ctx.hosts && q.shardId !in ctx.hosts[q.addressList[0]].shards
  {
    Partition(ctx.image[q.shardId], ctx.tick);
    hide FailedIds, OkIds, WaitingIds, CreateOf, ExpectedSize;
  }

  // A host that is not listed with a shard has no imaged replica of it.
  lemma NotAtHost(d: DbState, s: nat, a: string)
    requires HostsOk(d.hosts, d.image) && a in d.hosts && s !in d.hosts[a].shards && s in d.image
    ensures a !in Members(d.image[s]).Values
  {
    forall r | r in d.image[s].replicas
      ensures d.image[s].replicas[r].address != a
    {
      assert s !in ShardsAt(d.image, a);
    }
  }

  lemma ContextHosts(truth: Histories, d: DbState, ctx: Context)
    requires DbTrue(truth, d) && ContextOf(ctx, d)
    ensures ctx.hosts == d.hosts && HostsOk(d.hosts, d.image)
  {}

  lemma AddIsOk(truth: Histories, d: DbState, ctx: Context, q: Request, d': DbState)
    requires TruthOk(truth) && DbTrue(truth, d) && ContextOf(ctx, d) && SameDefs(d, d')
    requires MayRepair(ctx, q) && q.kind == ADD && FreshId(truth, q)
    ensures RequestOk(truth, d', q)
  {
    AddMeansSize(ctx, q);
    InContext(ctx, q);
    ContextHosts(truth, d, ctx);
    hide TruthOk, DbTrue, ContextOf, MayRepair, ExpectedSize, Members, HostsOk;
    var k := ContextConfig(truth, d, ctx, q.shardId);
    NotAtHost(d, q.shardId, q.addressList[0]);
    assert AddAt(truth[q.shardId], k, |d.shards[q.shardId].members|, q);
  }

  lemma ContextImage(ctx: Context, d: DbState)
    requires ContextOf(ctx, d)
    ensures ctx.image == d.image && ctx.kills == d.kills
  {}

  lemma ImageKeys(truth: Histories, image: Image, s: nat)
    requires ImageOk(truth, image) && s in image
    ensures image[s].shardId == s
  {
    assert RecordOk(truth, s, image[s]);
  }

  lemma ScheduledIsOk(truth: Histories, d: DbState, ctx: Context, q: Request, d': DbState)
    requires TruthOk(truth) && DbTrue(truth, d) && ContextOf(ctx, d) && ImageLe(d.image, d'.image) && SameDefs(d, d')
    requires MayRestore(ctx, q) || (MayRepair(ctx, q) && q.kind != KILL) || MayKill(ctx, q)
    requires FreshId(truth, q)
    ensures RequestOk(truth, d', q)
  {
    hide TruthOk, ImageOk, ImageLe, HostsOk, DefsOk, ContextOf, Known, Gone, FreshId, DeleteNeeded, CreateNeeded, AddNeeded,
      RestoreNeeded, CanRestore, SameDefs;
    assert ctx.image == d.image && ctx.kills == d.kills by { ContextImage(ctx, d); }
    if q.kind == DELETE {
      DeleteIsOk(truth, d, ctx, q, d');
    } else if q.kind == ADD {
      AddIsOk(truth, d, ctx, q, d');
    } else if q.kind == CREATE {
      ImageKeys(truth, d.image, q.shardId);
      ImagedIsKnown(truth, d.image, d'.image, q.shardId, q.instantiateReplicaId);
    }
  }

  lemma ScheduleKeepsInv(st: State, ctx: Context, batch: seq<Request>)
    requires Inv(st) && Enabled(st, Schedule(ctx, batch))
    ensures Inv(Next(st, Schedule(ctx, batch)))
  {
    hide TruthOk, DbTrue, ImageLe, ContextOf, Known, MayRestore, MayRepair, MayKill, FreshId, RequestOk, InfoOk, SameDefs;
    var d :| d in st.past && ContextOf(ctx, d);
    forall q | q in batch
      ensures RequestOk(st.truth, st.db, q)
    {
      ScheduledIsOk(st.truth, d, ctx, q, st.db);
    }
  }

  // ----- a fenced change is applied

  lemma FenceIsLast(h: ShardHistory, k: nat, index: nat)
    requires Increasing(h) && h != [] && k < |h| && h[k].index == index && Last(h).index == index
    ensures k == |h| - 1
  {}

  // c's replicas are of the last configuration, or were never seen before.
  ghost predicate Continues(h: ShardHistory, c: Config)
  {
    h != [] && forall x :: x in c.members ==> (x in Last(h).members && c.members[x] == Last(h).members[x])
                                              || forall k: nat :: k < |h| ==> x !in h[k].members
  }

  lemma AddressesGrow(h: ShardHistory, c: Config)
    requires SameAddress(h) && Continues(h, c)
    ensures SameAddress(h + [c])
  {}

  lemma RemovedGrow(h: ShardHistory, c: Config)
    requires NeverBack(h) && Continues(h, c)
    ensures NeverBack(h + [c])
  {}

  // One more configuration, taken from the last one by putting in a replica never seen before or
  // taking one out.
  lemma HistoryGrows(h: ShardHistory, c: Config)
    requires HistoryOk(h) && c.index > Last(h).index
    requires c.members != map[] && Size(h) <= |c.members| && DistinctAddresses(c.members) && Continues(h, c)
    ensures HistoryOk(h + [c])
  {
    hide DistinctAddresses, SameAddress, NeverBack;
    var h' := h + [c];
    AddressesGrow(h, c);
    RemovedGrow(h, c);
    forall k: nat | k < |h'|
      ensures ConfigOk(h', k)
    {
      assert k < |h| ==> ConfigOk(h, k);
    }
  }

  // A map on the ids of a list has at most as many keys; as many exactly when no id is repeated.
  lemma {:induction false} FirstSize(m: map<nat, string>, ids: seq<nat>)
    requires forall r :: r in m <==> r in ids
    ensures |m| <= |ids| && (DistinctIds(ids) ==> |m| == |ids|)
    decreases |ids|
  {
    if ids == [] {
      assert m.Keys == {};
    } else {
      var n := |ids| - 1;
      var rest := ids[..n];
      assert ids == rest + [ids[n]];
      if ids[n] in rest {
        FirstSize(m, rest);
        var i :| 0 <= i < n && rest[i] == ids[n];
        assert ids[i] == ids[n];
      } else {
        FirstSize(m - {ids[n]}, rest);
        assert (m - {ids[n]}).Keys == m.Keys - {ids[n]};
      }
    }
  }

  lemma AddedDistinct(m: map<nat, string>, r: nat, a: string)
    requires DistinctAddresses(m) && r !in m && a !in m.Values
    ensures DistinctAddresses(m[r := a]) && |m[r := a]| == |m| + 1
  {
    assert m[r := a].Keys == m.Keys + {r};
    forall x | x in m
      ensures m[x] != a
    {
      assert m[x] in m.Values;
    }
  }

  lemma AddGrowsHistory(h: ShardHistory, q: Request, index: nat, k: nat, def: ShardDef)
    requires HistoryOk(h) && BandOk(h, def) && q.kind == ADD && |q.members| == 1 && |q.addressList| == 1
    requires AddAt(h, k, |def.members|, q) && q.confChangeId == Last(h).index && index > q.confChangeId
    ensures var h' := h + [Config(index, Changed(Last(h).members, q))];
            HistoryOk(h') && BandOk(h', def)
  {
    FenceIsLast(h, k, q.confChangeId);
    var m, r, a := Last(h).members, q.members[0], q.addressList[0];
    var m' := m[r := a];
    assert ConfigOk(h, k);
    hide DistinctAddresses, Increasing, SameAddress, NeverBack;
    assert r !in m;
    AddedDistinct(m, r, a);
    HistoryGrows(h, Config(index, m'));
  }

  lemma DeleteGrowsHistory(h: ShardHistory, q: Request, index: nat, k: nat, def: ShardDef)
    requires HistoryOk(h) && BandOk(h, def) && q.kind == DELETE && |q.members| == 1
    requires DeleteAt(h, k, |def.members|, q) && q.confChangeId == Last(h).index && index > q.confChangeId
    ensures var h' := h + [Config(index, Changed(Last(h).members, q))];
            HistoryOk(h') && BandOk(h', def)
  {
    FenceIsLast(h, k, q.confChangeId);
    var m, r := Last(h).members, q.members[0];
    var m' := m - {r};
    assert ConfigOk(h, k) && ConfigOk(h, 0);
    FirstSize(h[0].members, def.members);
    assert m'.Keys == m.Keys - {r};
    assert |m'| == |m| - 1;
    assert h[0].members.Keys != {};
    HistoryGrows(h, Config(index, m'));
  }

  // Only the truth moved.
  lemma TruthMoved(st: State, later: Histories)
    requires Inv(st) && TruthOk(later) && Extends(st.truth, later) && later.Keys == st.truth.Keys
    requires forall s :: s in later ==> s in st.db.shards && BandOk(later[s], st.db.shards[s])
    ensures Inv(st.(truth := later))
  {
    hide TruthOk, Known, InfoOk, RequestOk, ImageLe, HostsOk, BandOk;
    forall d | d in st.past
      ensures DbTrue(later, d)
    {
      DbTrueStays(st.truth, later, d);
    }
    assert DbTrue(later, st.db);
    assert ImageLe(st.db.image, st.db.image) by { ImageLeReflexive(st.db.image); }
    InFlightStays(st, later, st.db);
  }

  lemma ChangeKeepsInv(st: State, q: Request, index: nat)
    requires Inv(st) && Enabled(st, Change(q, index))
    ensures Inv(Next(st, Change(q, index)))
  {
    hide DbTrue, ImageOk, ImageLe, Known, InfoOk, SameDefs, HistoryOk, BandOk, AddAt, DeleteAt, Changed, Gone;
    var s := q.shardId;
    var h := st.truth[s];
    var def := st.db.shards[s];
    var e := |def.members|;
    assert RequestOk(st.truth, st.db, q);
    if q.kind == ADD {
      var k: nat :| AddAt(h, k, e, q);
      AddGrowsHistory(h, q, index, k, def);
    } else {
      var k: nat :| DeleteAt(h, k, e, q);
      DeleteGrowsHistory(h, q, index, k, def);
    }
    var st' := Next(st, Change(q, index));
    TruthMoved(st, st'.truth);
  }

  // ----- a launch is accepted

  lemma {:induction false} ZipHolds(members: seq<nat>, addresses: seq<string>)
    requires |members| == |addresses|
    ensures |Zip(members, addresses)| <= |members|
    ensures forall r :: r in Zip(members, addresses) <==> r in members
    ensures forall r :: r in Zip(members, addresses) ==>
              exists i :: 0 <= i < |members| && members[i] == r && Zip(members, addresses)[r] == addresses[i]
  {
    if members != [] {
      var n := |members| - 1;
      ZipHolds(members[..n], addresses[..n]);
      var rest, zip := Zip(members[..n], addresses[..n]), Zip(members, addresses);
      assert zip == rest[members[n] := addresses[n]] && members == members[..n] + [members[n]];
      hide Zip;
      assert zip.Keys == rest.Keys + {members[n]};
      forall r | r in zip
        ensures exists i :: 0 <= i < |members| && members[i] == r && zip[r] == addresses[i]
      {
        if r == members[n] {
          assert members[n] == r && zip[r] == addresses[n];
        } else {
          var i :| 0 <= i < n && members[..n][i] == r && rest[r] == addresses[..n][i];
          assert members[i] == r && zip[r] == addresses[i];
        }
      }
    }
  }

  lemma ZipDistinct(members: seq<nat>, addresses: seq<string>)
    requires |members| == |addresses|
    requires forall i, j :: 0 <= i < j < |addresses| ==> addresses[i] != addresses[j]
    ensures DistinctAddresses(Zip(members, addresses))
  {
    ZipHolds(members, addresses);
    hide Zip;
  }

  lemma FirstHistoryOk(ctx: Context, def: ShardDef, plan: seq<Request>, first: Histories)
    requires PlanGives(ctx, def, plan, first) && def.members != [] && DistinctRegions(ctx.regions)
    ensures def.shardId in first && HistoryOk(first[def.shardId]) && BandOk(first[def.shardId], def)
    ensures forall q :: q in plan ==> q.kind == CREATE && q.shardId == def.shardId
                                      && q.instantiateReplicaId in first[def.shardId][0].members
  {
    var addressList :| PlanAt(ctx, def, plan, addressList, first);
    ZipHolds(def.members, addressList);
    ZipDistinct(def.members, addressList);
    var h := first[def.shardId];
    assert h[0].members.Keys != {} by { assert def.members[0] in h[0].members; }
    assert ConfigOk(h, 0);
  }

  ghost predicate StartsAt(plan: seq<Request>, k: nat, m: nat)
  {
    k < |plan| && plan[k].instantiateReplicaId == m
  }

  // Each member is at its own address.
  lemma {:induction false} ZipAt(members: seq<nat>, addresses: seq<string>, k: nat)
    requires |members| == |addresses| && k < |members| && DistinctIds(members)
    ensures members[k] in Zip(members, addresses) && Zip(members, addresses)[members[k]] == addresses[k]
  {
    var n := |members| - 1;
    if k < n {
      ZipAt(members[..n], addresses[..n], k);
    }
  }

  // A launch starts every member by exactly one request, at the address its first configuration gives
  // it, if no id is defined twice.
  lemma PlanStartsAll(ctx: Context, def: ShardDef, plan: seq<Request>, addressList: seq<string>, first: Histories, m: nat)
    requires PlanAt(ctx, def, plan, addressList, first) && DistinctIds(def.members)
    ensures m in def.members <==> exists k: nat :: StartsAt(plan, k, m)
    ensures forall k: nat, l: nat :: StartsAt(plan, k, m) && StartsAt(plan, l, m) ==> k == l
    ensures forall k: nat :: StartsAt(plan, k, m) ==>
              && m in first[def.shardId][0].members && plan[k].raftAddress == first[def.shardId][0].members[m]
              && plan[k].kind == CREATE && !plan[k].join && !plan[k].restore && plan[k].shardId == def.shardId
              && plan[k].replicaIdList == def.members && plan[k].addressList == addressList && plan[k].appName == def.appName
  {
    hide ByRegion, InRegions;
    if m in def.members {
      var k :| 0 <= k < |def.members| && def.members[k] == m;
      assert Launches(def, addressList, k, plan[k]) && StartsAt(plan, k, m);
    }
    forall k: nat | StartsAt(plan, k, m)
      ensures k < |def.members| && def.members[k] == m && m in first[def.shardId][0].members
      ensures plan[k].raftAddress == first[def.shardId][0].members[m]
    {
      assert Launches(def, addressList, k, plan[k]);
      ZipAt(def.members, addressList, k);
    }
  }

  ghost predicate NoEmptyDefs(shards: seq<ShardDef>)
  {
    forall k :: 0 <= k < |shards| ==> shards[k].members != []
  }

  lemma DbDefs(truth: Histories, d: DbState)
    requires DbTrue(truth, d)
    ensures DefsOk(truth, d)
  {}

  lemma ContextDefs(truth: Histories, d: DbState, ctx: Context)
    requires DefsOk(truth, d) && ContextOf(ctx, d)
    ensures NoEmptyDefs(ctx.shards)
  {}

  // Nothing is imaged before anything is launched.
  lemma NothingImaged(st: State)
    requires PastOk(st) && st.truth == map[]
    ensures st.db.image == map[] && DbTrue(map[], st.db)
  {
    assert DbTrue(st.truth, st.db);
    forall s | s in st.db.image
      ensures s in st.truth
    {
      assert RecordOk(st.truth, s, st.db.image[s]);
    }
    assert st.db.image.Keys == {};
  }

  lemma FirstTruthOk(ctx: Context, plans: seq<seq<Request>>, first: Histories)
    requires FirstConfigs(ctx, plans, first) && DistinctRegions(ctx.regions) && NoEmptyDefs(ctx.shards)
    ensures TruthOk(first)
  {
    hide PlanGives, HistoryOk;
    forall s | s in first
      ensures HistoryOk(first[s])
    {
      var k :| 0 <= k < |ctx.shards| && ctx.shards[k].shardId == s;
      FirstHistoryOk(ctx, ctx.shards[k], plans[k], first);
    }
  }

  lemma EmptyDbTrue(first: Histories, d: DbState, d': DbState)
    requires DbTrue(map[], d) && d.image == map[] && d'.image == d.image && d'.hosts == d.hosts && d'.kills == d.kills
    requires d'.shards == d.shards
    ensures DbTrue(first, d')
  {
    hide Gone;
    forall k | k in d.kills
      ensures Gone(first, k.shardId, k.replicaId)
    {
      GoneStays(map[], first, k.shardId, k.replicaId);
    }
  }

  lemma HistoryNonempty(h: ShardHistory)
    requires HistoryOk(h)
    ensures h != []
  {}

  lemma FirstLaunched(st: State, ctx: Context, plans: seq<seq<Request>>, first: Histories)
    requires PastOk(st) && FirstConfigs(ctx, plans, first) && DistinctRegions(ctx.regions) && NoEmptyDefs(ctx.shards)
    requires exists d :: d in st.past && ContextOf(ctx, d)
    ensures forall s :: s in first ==> s in st.db.shards && BandOk(first[s], st.db.shards[s])
  {
    hide PlanGives, DbTrue, ImageLe, HistoryOk, BandOk, DistinctRegions;
    var d :| d in st.past && ContextOf(ctx, d);
    forall s | s in first
      ensures s in st.db.shards && BandOk(first[s], st.db.shards[s])
    {
      var k :| 0 <= k < |ctx.shards| && ctx.shards[k].shardId == s;
      FirstHistoryOk(ctx, ctx.shards[k], plans[k], first);
    }
  }

  lemma {:induction false} InSomePlan(plans: seq<seq<Request>>, q: Request)
    requires q in Flatten(plans)
    ensures exists k :: 0 <= k < |plans| && q in plans[k]
  {
    var n := |plans| - 1;
    if q in plans[n] {
    } else {
      InSomePlan(plans[..n], q);
      var k :| 0 <= k < n && q in plans[..n][k];
      assert plans[k] == plans[..n][k];
    }
  }

  lemma FirstRequestOk(ctx: Context, plans: seq<seq<Request>>, first: Histories, d: DbState, q: Request)
    requires FirstConfigs(ctx, plans, first) && DistinctRegions(ctx.regions) && NoEmptyDefs(ctx.shards) && d.image == map[] && q in Flatten(plans)
    ensures RequestOk(first, d, q)
  {
    hide PlanGives, HistoryOk;
    InSomePlan(plans, q);
    var k :| 0 <= k < |plans| && q in plans[k];
    FirstHistoryOk(ctx, ctx.shards[k], plans[k], first);
    HistoryNonempty(first[q.shardId]);
    assert KnownAt(first[q.shardId], 0, d.image, q.shardId, q.instantiateReplicaId);
  }

  lemma LaunchKeepsInv(st: State, ctx: Context, plans: seq<seq<Request>>, first: Histories)
    requires Inv(st) && Enabled(st, Launch(ctx, plans, first))
    ensures Inv(Next(st, Launch(ctx, plans, first)))
  {
    hide ContextOf, PlanGives, Known, RequestOk, InfoOk, HistoryOk, SameDefs, Flatten, DbTrue, ImageLe, HasLaunch, BandOk, DefsOk,
      DistinctRegions, NoEmptyDefs, UpdateApplied;
    var u := RequestsUpdate(Flatten(plans));
    var d' := UpdateApplied(st.db, u).db;
    var st' := Next(st, Launch(ctx, plans, first));
    assert st.truth == map[] && st'.truth == first;
    NothingImaged(st);
    var d :| d in st.past && ContextOf(ctx, d);
    assert DefsOk(st.truth, d) by { DbDefs(st.truth, d); }
    ContextDefs(st.truth, d, ctx);
    FirstTruthOk(ctx, plans, first);
    BatchLeavesImages(st.db, u);
    KeyStays(st.db, u, LAUNCHED_KEY);
    assert DbTrue(first, d') by { EmptyDbTrue(first, st.db, d'); }
    assert ImageLe(st.db.image, d'.image) by { ImageLeReflexive(st.db.image); }
    DbMovedKeeps(st, first, d');
    InFlightStays(st, first, d');
    FirstLaunched(st, ctx, plans, first);
    forall q | q in Flatten(plans)
      ensures RequestOk(first, d', q)
    {
      FirstRequestOk(ctx, plans, first, d', q);
    }
  }

  // ----- every run

  lemma InitialInv(st: State)
    requires Initial(st)
    ensures Inv(st)
  {}

  lemma StepKeepsInv(st: State, step: Step)
    requires Inv(st) && Enabled(st, step)
    ensures Inv(Next(st, step))
  {
    hide Inv;
    match step
    case Log(u) => LogKeepsInv(st, u);
    case Launch(ctx, plans, first) => LaunchKeepsInv(st, ctx, plans, first);
    case Schedule(ctx, batch) => ScheduleKeepsInv(st, ctx, batch);
    case Send(nhi, infos, seen) => SendKeepsInv(st, nhi, infos, seen);
    case Change(q, index) => ChangeKeepsInv(st, q, index);
    case Start(_) => StartStopKeepInv(st, step);
    case Stop(_, _, _) => StartStopKeepInv(st, step);
  }

  // States linked by steps, from an initial one.
  ghost predicate IsRun(states: seq<State>, steps: seq<Step>)
  {
    && |states| == |steps| + 1 && Initial(states[0])
    && forall i :: 0 <= i < |steps| ==> Enabled(states[i], steps[i]) && states[i + 1] == Next(states[i], steps[i])
  }

  lemma {:induction false} RunKeepsInv(states: seq<State>, steps: seq<Step>, i: nat)
    requires IsRun(states, steps) && i < |states|
    ensures Inv(states[i])
  {
    hide Inv, Enabled, Next, Initial;
    if i == 0 {
      InitialInv(states[0]);
    } else {
      RunKeepsInv(states, steps, i - 1);
      StepKeepsInv(states[i - 1], steps[i - 1]);
    }
  }

  lemma {:induction false} RequestsPersist(states: seq<State>, steps: seq<Step>, i: nat, j: nat)
    requires IsRun(states, steps) && i <= j < |states|
    ensures states[i].requests <= states[j].requests
    decreases j
  {
    if i < j {
      RequestsPersist(states, steps, i, j - 1);
      assert Enabled(states[j - 1], steps[j - 1]) && states[j] == Next(states[j - 1], steps[j - 1]);
    }
  }

  // KILL safety: a replica that a KILL names, whenever it was handed out and however late it
  // arrives, is not a member of its shard then or at any later time.
  lemma KillIsSafe(states: seq<State>, steps: seq<Step>, i: nat, j: nat, q: Request)
    requires IsRun(states, steps) && i <= j < |states|
    requires q in states[i].requests && q.kind == KILL
    ensures |q.members| == 1 && !IsMember(states[j].truth, q.shardId, q.members[0])
  {
    hide TruthOk, Gone, PastOk, LaunchedOk, ReportsOk, RunningOk, IsRun;
    RequestsPersist(states, steps, i, j);
    RunKeepsInv(states, steps, j);
    assert RequestOk(states[j].truth, states[j].db, q);
    GoneIsNoMember(states[j].truth, q.shardId, q.members[0]);
  }

  // A shard starts with the members of its definition. Every membership it ever has is at least of
  // that size and at most one above the size defined, and on different hosts. Without repeated ids in
  // the definition the two sizes are the same.
  lemma MembershipBand(states: seq<State>, steps: seq<Step>, i: nat, s: nat, k: nat)
    requires IsRun(states, steps) && i < |states|
    requires s in states[i].truth && k < |states[i].truth[s]|
    ensures s in states[i].db.shards
    ensures var h, def := states[i].truth[s], states[i].db.shards[s];
            && (forall r :: r in h[0].members <==> r in def.members)
            && |h[0].members| <= |h[k].members| <= |def.members| + 1
            && (DistinctIds(def.members) ==> |h[0].members| == |def.members|)
            && DistinctAddresses(h[k].members)
  {
    hide PastOk, RequestsOk, ReportsOk, RunningOk, IsRun, Increasing, SameAddress, NeverBack;
    RunKeepsInv(states, steps, i);
    assert HistoryOk(states[i].truth[s]) && ConfigOk(states[i].truth[s], k);
    FirstSize(states[i].truth[s][0].members, states[i].db.shards[s].members);
  }

  // No report ever makes the database panic, and what the image says of a shard is a
  // configuration the shard has had.
  lemma ImageStaysTrue(states: seq<State>, steps: seq<Step>, i: nat, nhi: NodeHostInfo)
    requires IsRun(states, steps) && i < |states| && nhi in states[i].reports
    ensures UpdateApplied(states[i].db, NodeHostUpdate(nhi)).DbOk?
    ensures ImageOk(states[i].truth, states[i].db.image)
  {
    hide RequestsOk, RunningOk, LaunchedOk, IsRun, TruthOk, ImageOk, InfoTrue, Known, HostsOk, DefsOk, ReportApplied, HostsSynced,
      HostReported, LaunchedShards;
    RunKeepsInv(states, steps, i);
    var st := states[i];
    assert DbTrue(st.truth, st.db);
    forall ci | ci in nhi.shardInfo
      ensures InfoTrue(st.truth, ci)
    {
      assert InfoOk(st.truth, st.db.image, ci);
    }
    ReportKeeps(st.truth, st.db.image, nhi.shardInfo, nhi.raftAddress, st.db.tick);
  }

  lemma StepGrows(st: State, step: Step)
    requires Inv(st) && Enabled(st, step)
    ensures Extends(st.truth, Next(st, step).truth) && st.past <= Next(st, step).past
  {
    hide UpdateApplied, TruthOk, DbTrue, RequestOk, InfoOk, Known, SameDefs, ImageLe, ContextOf;
  }

  lemma {:induction false} RunGrows(states: seq<State>, steps: seq<Step>, i: nat, j: nat)
    requires IsRun(states, steps) && i <= j < |states|
    ensures Extends(states[i].truth, states[j].truth) && states[i].past <= states[j].past
    decreases j
  {
    hide Inv, Enabled, Next, Initial;
    if i < j {
      RunGrows(states, steps, i, j - 1);
      RunKeepsInv(states, steps, j - 1);
      StepGrows(states[j - 1], steps[j - 1]);
    }
  }

  lemma StillTrue(st: State, later: Histories, address: string, infos: seq<ShardInfo>)
    requires Extends(st.truth, later) && forall ci :: ci in infos ==> CanReport(st, address, ci)
    ensures AllTrue(later, infos) && NoneIncomplete(infos)
  {
    hide Was, Extends;
    forall ci | ci in infos
      ensures InfoTrue(later, ci) && !ci.incomplete
    {
      assert CanReport(st, address, ci);
      if !ci.pending {
        WasStays(st.truth, later, ci.shardId, ci.index, ci.replicas);
      }
    }
  }

  // The database makes the same of two reports that do the same to the image.
  lemma SameReport(d: DbState, nhi: NodeHostInfo, infos: seq<ShardInfo>)
    requires ReportApplied(d.image, nhi.shardInfo, nhi.raftAddress, d.tick) == ReportApplied(d.image, infos, nhi.raftAddress, d.tick)
    ensures UpdateApplied(d, NodeHostUpdate(nhi)) == UpdateApplied(d, NodeHostUpdate(nhi.(shardInfo := infos)))
  {
    hide ReportApplied, HostsSynced, LaunchedShards;
  }

  // A host that leaves memberships out of its report because Drummer knew them when it asked:
  // whenever the report is taken in, by whichever state the database is in by then, the new state
  // is the one the full report would have given.
  lemma SuppressionIsLossless(states: seq<State>, steps: seq<Step>, i: nat, j: nat, nhi: NodeHostInfo, infos: seq<ShardInfo>,
                              seen: DbState)
    requires IsRun(states, steps) && i < j < |states| && steps[i] == Send(nhi, infos, seen)
    ensures UpdateApplied(states[j].db, NodeHostUpdate(nhi))
            == UpdateApplied(states[j].db, NodeHostUpdate(nhi.(shardInfo := infos)))
  {
    RunGrows(states, steps, i, j);
    RunKeepsInv(states, steps, j);
    assert Enabled(states[i], steps[i]);
    var st := states[j];
    hide RequestsOk, RunningOk, LaunchedOk, ReportsOk, IsRun, TruthOk, ImageOk, Extends, SameDefs, ImageLe, SuppressedAll,
      InfoTrue, UpdateApplied;
    assert DbTrue(st.truth, st.db) && ImageLe(seen.image, st.db.image);
    StillTrue(states[i], st.truth, nhi.raftAddress, infos);
    hide Enabled;
    SuppressedReportLosesNothing(st.truth, seen.image, st.db.image, infos, nhi.raftAddress, st.db.tick);
    SameReport(st.db, nhi, infos);
  }

  // Every context a scheduler can be given meets what scheduling asks of it: no lookup of a shard
  // or of its name fails, and every host is listed with the shards it has a replica of.
  lemma ContextsAreReady(states: seq<State>, steps: seq<Step>, i: nat, d: DbState, ctx: Context)
    requires IsRun(states, steps) && i < |states| && d in states[i].past && ContextOf(ctx, d)
    ensures WellKeyed(ctx) && Defined(ctx) && HostsOk(ctx.hosts, ctx.image)
  {
    hide RequestsOk, RunningOk, ReportsOk, IsRun, TruthOk, Was, ShardsAt;
    RunKeepsInv(states, steps, i);
    var truth := states[i].truth;
    assert DbTrue(truth, d);
    forall s | s in ctx.image
      ensures ctx.image[s].shardId == s && KeyedRecord(ctx.image[s])
    {
      assert RecordOk(truth, s, d.image[s]);
    }
  }
}
