// What goes wrong on contexts that a log of updates leads to: one stuck shard stops all repair, an
// ADD costs a quorum, and a launch crashes.
module Outages {
  import opened ShardImage
  import opened HostImage
  import opened Scheduler
  import opened Database
  import opened Repair

  // ----- a log

  const A: string := "a"

  const B: string := "b"

  const C: string := "c"

  const D: string := "d"

  const E: string := "e"

  lemma NamesDiffer()
    ensures A != B && A != C && A != D && A != E && B != C && B != D && B != E && C != D && C != E && D != E
  {}

  const MEMBERS1: map<nat, string> := map[1 := A, 2 := B, 3 := C]

  const MEMBERS2: map<nat, string> := map[7 := A, 8 := E]

  const DEF1: ShardDef := ShardDef(1, [1, 2, 3], "app")

  const DEF2: ShardDef := ShardDef(2, [7, 8], "app")

  // A host reports one replica and nothing else.
  function Says(a: string, ci: ShardInfo): Update
  {
    NodeHostUpdate(NodeHostInfo(a, "", "r", 0, [ci], [ci.shardId], true, [(ci.shardId, ci.replicaId)]))
  }

  function Ticks(n: nat): seq<Update>
  {
    seq(n, _ => TickUpdate)
  }

  // Two shards; replica 3 of the first and replica 8 of the second are heard of once, at tick 5, the
  // other two running replicas of the first shard at tick 70.
  const LOG: seq<Update> :=
    [ShardUpdate(DEF1)] + [ShardUpdate(DEF2)] + Ticks(1)
    + [Says(C, Entry(1, 3, 10, MEMBERS1, 0))] + [Says(E, Entry(2, 8, 10, MEMBERS2, 0))] + Ticks(13)
    + [Says(A, Entry(1, 1, 10, MEMBERS1, 0))] + [Says(B, Entry(1, 2, 10, MEMBERS1, 0))]

  function Rep(s: nat, r: nat, a: string, tick: nat): Replica
  {
    Replica(s, r, a, false, tick, 5)
  }

  function First(t1: nat, t2: nat): ShardRecord
  {
    ShardRecord(1, 10, map[1 := Rep(1, 1, A, t1), 2 := Rep(1, 2, B, t2), 3 := Rep(1, 3, C, 5)])
  }

  const SECOND: ShardRecord := ShardRecord(2, 10, map[7 := Rep(2, 7, A, 0), 8 := Rep(2, 8, E, 5)])

  lemma LogSnoc(log: seq<Update>, u: Update)
    requires LogApplied(log).DbOk?
    ensures LogApplied(log + [u]) == UpdateApplied(LogApplied(log).db, u)
  {
    assert (log + [u])[..|log|] == log;
  }

  lemma {:induction false} TicksApplied(log: seq<Update>, n: nat)
    requires LogApplied(log).DbOk? && LogApplied(log).db.launchDeadline == 0
    ensures LogApplied(log + Ticks(n)) == DbOk(LogApplied(log).db.(tick := LogApplied(log).db.tick + n * TICK_INTERVAL_SECOND))
  {
    if n == 0 {
      assert log + Ticks(0) == log;
    } else {
      TicksApplied(log, n - 1);
      assert log + Ticks(n) == log + Ticks(n - 1) + [TickUpdate];
      LogSnoc(log + Ticks(n - 1), TickUpdate);
    }
  }

  // A report of one replica, none of whose shard leads.
  lemma OneEntry(image: Image, ci: ShardInfo, a: string, now: nat, c: ShardRecord)
    requires InfoApplied(image, ci, now) == Updated(image[ci.shardId := c], [])
    requires !ci.isLeader && ci.replicaId in c.replicas && !c.replicas[ci.replicaId].isLeader
    ensures var r := ci.replicaId;
            ReportApplied(image, [ci], a, now)
            == Reported(image[ci.shardId := c.(replicas := c.replicas[r := c.replicas[r].(tick := now)])], [])
  {
    hide InfoApplied;
    var synced := image[ci.shardId := c];
    assert [ci][..0] == [] && [ci][..1] == [ci];
    assert InfosApplied(image, [], now) == Updated(image, []);
    assert InfosApplied(image, [ci], now) == Updated(synced, []);
    TickedNothing(synced, now);
    TickedSnoc(synced, [ci], 0, now);
    var ticked := TickedOne(synced, ci, now);
    hide Ticked;
    assert LeadersApplied(ticked, []) == ticked;
    assert LeadersApplied(ticked, [ci]) == LeaderApplied(ticked, ci) == ticked;
  }

  // The known hosts with the ticks they were heard of; what is imaged on a host is among its shards.
  ghost predicate HostsAre(hosts: Hosts, image: Image, ticks: map<string, nat>)
  {
    && hosts.Keys == ticks.Keys
    && forall a :: a in hosts ==> hosts[a].address == a && hosts[a].tick == ticks[a] && ShardsAt(image, a) <= hosts[a].shards
  }

  lemma HostsAfter(hosts: Hosts, image: Image, ticks: map<string, nat>, nhi: NodeHostInfo, image': Image)
    requires HostsAre(hosts, image, ticks)
    ensures var after := HostsSynced(HostReported(hosts, nhi), image');
            && HostsAre(after, image', ticks[nhi.raftAddress := nhi.lastTick])
            && after[nhi.raftAddress].shards == IdSet(nhi.shardIdList) + ShardsAt(image', nhi.raftAddress)
  {
    hide ShardsAt, IdSet;
  }

  // A database that has had no launch, at this tick with this image.
  ghost predicate Holds(log: seq<Update>, tick: nat, image: Image, ticks: map<string, nat>, kills: seq<ReplicaToKill>)
  {
    && LogApplied(log).DbOk?
    && var d := LogApplied(log).db;
       && d.tick == tick && d.launchDeadline == 0 && d.shards == map[1 := DEF1, 2 := DEF2] && d.image == image && d.kills == kills
       && HostsAre(d.hosts, d.image, ticks)
  }

  lemma ReportHeld(log: seq<Update>, tick: nat, image: Image, ticks: map<string, nat>, kills: seq<ReplicaToKill>,
                   nhi: NodeHostInfo, image': Image, ticks': map<string, nat>, kills': seq<ReplicaToKill>)
    requires Holds(log, tick, image, ticks, kills)
    requires |kills| <= |kills'| && kills' == kills + kills'[|kills|..] && ticks' == ticks[nhi.raftAddress := tick]
    requires ReportApplied(image, nhi.shardInfo, nhi.raftAddress, tick) == Reported(image', kills'[|kills|..])
    ensures Holds(log + [NodeHostUpdate(nhi)], tick, image', ticks', kills')
    ensures LogApplied(log + [NodeHostUpdate(nhi)]).db.hosts[nhi.raftAddress].shards
            == IdSet(nhi.shardIdList) + ShardsAt(image', nhi.raftAddress)
  {
    var d := LogApplied(log).db;
    LogSnoc(log, NodeHostUpdate(nhi));
    StoredIs(d, nhi);
    HostsAfter(d.hosts, d.image, ticks, nhi.(lastTick := tick), image');
    hide ReportApplied, ShardsAt, IdSet, LaunchedShards, ReportStored, HostsAre;
  }

  lemma TicksHeld(log: seq<Update>, tick: nat, image: Image, ticks: map<string, nat>, kills: seq<ReplicaToKill>, n: nat)
    requires Holds(log, tick, image, ticks, kills)
    ensures Holds(log + Ticks(n), tick + n * TICK_INTERVAL_SECOND, image, ticks, kills)
  {
    TicksApplied(log, n);
  }

  lemma DefinedHeld()
    ensures Holds([ShardUpdate(DEF1)] + [ShardUpdate(DEF2)], 0, map[], map[], [])
  {
    LogSnoc([], ShardUpdate(DEF1));
    LogSnoc([ShardUpdate(DEF1)], ShardUpdate(DEF2));
    assert [] + [ShardUpdate(DEF1)] == [ShardUpdate(DEF1)];
  }

  function Img(t1: nat, t2: nat): Image
  {
    map[1 := First(t1, t2), 2 := SECOND]
  }

  lemma FirstHeard()
    ensures ReportApplied(map[], [Entry(1, 3, 10, MEMBERS1, 0)], C, 5) == Reported(map[1 := First(0, 0)], [])
  {
    hide A, B, C, D, E, ReportApplied;
    var ci, none := Entry(1, 3, 10, MEMBERS1, 0), map[];
    var c := NewShard(ci, 5);
    assert c.replicas == map[1 := Rep(1, 1, A, 0), 2 := Rep(1, 2, B, 0), 3 := Rep(1, 3, C, 0)];
    assert First(0, 0).replicas == c.replicas[3 := c.replicas[3].(tick := 5)];
    assert InfoApplied(none, ci, 5) == Updated(none[1 := c], []);
    hide NewShard, InfoApplied;
    OneEntry(none, ci, C, 5, c);
    assert none[1 := First(0, 0)] == map[1 := First(0, 0)];
  }

  lemma SecondHeard()
    ensures ReportApplied(map[1 := First(0, 0)], [Entry(2, 8, 10, MEMBERS2, 0)], E, 5) == Reported(Img(0, 0), [])
  {
    hide A, B, C, D, E, ReportApplied, First;
    var ci, before := Entry(2, 8, 10, MEMBERS2, 0), map[1 := First(0, 0)];
    var c := NewShard(ci, 5);
    assert c.replicas == map[7 := Rep(2, 7, A, 0), 8 := Rep(2, 8, E, 0)];
    assert SECOND.replicas == c.replicas[8 := c.replicas[8].(tick := 5)];
    assert InfoApplied(before, ci, 5) == Updated(before[2 := c], []);
    hide NewShard, InfoApplied;
    OneEntry(before, ci, E, 5, c);
    assert before[2 := SECOND] == Img(0, 0);
  }

  // A report of the membership that the record has already.
  lemma Unchanged(image: Image, c: ShardRecord, ci: ShardInfo, now: nat)
    requires ci.shardId in image && image[ci.shardId] == c && c.index == ci.index && c.shardId == ci.shardId
    requires Members(c) == ci.replicas && DistinctAddresses(ci.replicas) && !ci.pending && !ci.incomplete
    ensures InfoApplied(image, ci, now) == Updated(image[ci.shardId := c], [])
  {
    hide DistinctAddresses;
    assert c.replicas.Keys == Members(c).Keys == ci.replicas.Keys;
    assert Resynced(c, ci, now) == c.replicas;
    forall r | r in c.replicas
      ensures c.replicas[r].address == ci.replicas[r]
    {
      assert Members(c)[r] == ci.replicas[r];
    }
    assert SyncedShard(c, ci, now) == Synced(c);
  }

  lemma FirstMembers(t1: nat, t2: nat)
    ensures Members(First(t1, t2)) == MEMBERS1 && DistinctAddresses(MEMBERS1)
  {
    hide A, B, C;
    NamesDiffer();
  }

  lemma FirstMoved()
    ensures First(70, 0) == First(0, 0).(replicas := First(0, 0).replicas[1 := Rep(1, 1, A, 70)])
    ensures First(70, 70) == First(70, 0).(replicas := First(70, 0).replicas[2 := Rep(1, 2, B, 70)])
  {
    hide A, B, C;
    assert First(70, 0).replicas == First(0, 0).replicas[1 := Rep(1, 1, A, 70)];
    assert First(70, 70).replicas == First(70, 0).replicas[2 := Rep(1, 2, B, 70)];
  }

  lemma ThirdHeard()
    ensures ReportApplied(Img(0, 0), [Entry(1, 1, 10, MEMBERS1, 0)], A, 70) == Reported(Img(70, 0), [])
  {
    hide A, B, C, D, E, InfoApplied, ReportApplied;
    var ci, c := Entry(1, 1, 10, MEMBERS1, 0), First(0, 0);
    FirstMembers(0, 0);
    Unchanged(Img(0, 0), c, ci, 70);
    OneEntry(Img(0, 0), ci, A, 70, c);
    FirstMoved();
    hide First;
    assert Img(70, 0) == Img(0, 0)[1 := First(70, 0)];
  }

  lemma FourthHeard()
    ensures ReportApplied(Img(70, 0), [Entry(1, 2, 10, MEMBERS1, 0)], B, 70) == Reported(Img(70, 70), [])
  {
    hide A, B, C, D, E, InfoApplied, ReportApplied;
    var ci, c := Entry(1, 2, 10, MEMBERS1, 0), First(70, 0);
    FirstMembers(70, 0);
    Unchanged(Img(70, 0), c, ci, 70);
    OneEntry(Img(70, 0), ci, B, 70, c);
    FirstMoved();
    hide First;
    assert Img(70, 70) == Img(70, 0)[1 := First(70, 70)];
  }

  const HEARD: map<string, nat> := map[A := 70, B := 70, C := 5, E := 5]

  lemma LogHolds()
    ensures Holds(LOG, 70, Img(70, 70), HEARD, [])
  {
    hide Holds, LogApplied, ReportApplied, First, A, B, C, D, E, Img;
    NamesDiffer();
    DefinedHeld();
    var log := [ShardUpdate(DEF1)] + [ShardUpdate(DEF2)];
    TicksHeld(log, 0, map[], map[], [], 1);
    log := log + Ticks(1);
    FirstHeard();
    ReportHeld(log, 5, map[], map[], [], Says(C, Entry(1, 3, 10, MEMBERS1, 0)).nhi, map[1 := First(0, 0)], map[C := 5], []);
    log := log + [Says(C, Entry(1, 3, 10, MEMBERS1, 0))];
    SecondHeard();
    ReportHeld(log, 5, map[1 := First(0, 0)], map[C := 5], [], Says(E, Entry(2, 8, 10, MEMBERS2, 0)).nhi,
      Img(0, 0), map[C := 5, E := 5], []);
    log := log + [Says(E, Entry(2, 8, 10, MEMBERS2, 0))];
    TicksHeld(log, 5, Img(0, 0), map[C := 5, E := 5], [], 13);
    log := log + Ticks(13);
    ThirdHeard();
    ReportHeld(log, 70, Img(0, 0), map[C := 5, E := 5], [], Says(A, Entry(1, 1, 10, MEMBERS1, 0)).nhi,
      Img(70, 0), map[C := 5, E := 5, A := 70], []);
    log := log + [Says(A, Entry(1, 1, 10, MEMBERS1, 0))];
    FourthHeard();
    ReportHeld(log, 70, Img(70, 0), map[C := 5, E := 5, A := 70], [], Says(B, Entry(1, 2, 10, MEMBERS1, 0)).nhi,
      Img(70, 70), HEARD, []);
  }

  // ----- one stuck shard

  // A replica that was once a member, as host D still knows it.
  const ZOMBIE: ShardInfo := ShardInfo(1, 9, false, map[1 := A, 9 := D], 5, false, false)

  lemma ZombieHeard()
    ensures ReportApplied(Img(70, 70), [ZOMBIE], D, 70) == Reported(Img(70, 70), [ReplicaToKill(1, 9, D)])
  {
    hide A, B, C, D, E;
    var image, infos := Img(70, 70), [ZOMBIE];
    assert infos[..0] == [] && infos[..1] == infos;
    assert InfosApplied(image, [], 70) == Updated(image, []);
    assert InfoApplied(image, ZOMBIE, 70) == Updated(image, [ZOMBIE]);
    hide InfoApplied;
    assert InfosApplied(image, infos, 70) == Updated(image, [] + [ZOMBIE]);
    TickedNothing(image, 70);
    TickedSnoc(image, infos, 0, 70);
    hide Ticked;
    assert LeadersApplied(image, []) == image;
    assert LeadersApplied(image, infos) == LeaderApplied(image, ZOMBIE) == image;
  }

  // What a lookup returns, no region being set.
  function Looked(d: DbState): Context
  {
    Context(d.tick, [DEF1, DEF2], [], d.image, d.hosts, d.kills)
  }

  lemma ImagedAt(t1: nat, t2: nat)
    ensures 1 in ShardsAt(Img(t1, t2), A) && 1 in ShardsAt(Img(t1, t2), B) && 1 in ShardsAt(Img(t1, t2), C)
    ensures ShardsAt(Img(t1, t2), D) == {}
  {
    hide A, B, C, D, E;
    NamesDiffer();
    assert Img(t1, t2)[1].replicas[1].address == A && Img(t1, t2)[1].replicas[2].address == B;
    assert Img(t1, t2)[1].replicas[3].address == C;
  }

  lemma ImgKeyed(t1: nat, t2: nat)
    ensures Img(t1, t2).Keys == {1, 2}
    ensures forall s :: s in Img(t1, t2) ==> Img(t1, t2)[s].shardId == s && KeyedRecord(Img(t1, t2)[s])
  {
    hide A, B, C, E;
  }

  lemma LookedIs(log: seq<Update>, ticks: map<string, nat>, kills: seq<ReplicaToKill>)
    requires Holds(log, 70, Img(70, 70), ticks, kills)
    ensures var ctx := Looked(LogApplied(log).db);
            ContextOf(ctx, LogApplied(log).db) && WellKeyed(ctx) && Defined(ctx)
  {
    ImgKeyed(70, 70);
    hide LogApplied, A, B, C, D, E, ShardsAt, Img, KeyedRecord;
    var ctx := Looked(LogApplied(log).db);
    assert ctx.shards[0] == DEF1 && ctx.shards[1] == DEF2;
  }

  lemma ImagedIn(image: Image, s: nat)
    requires s in image
    ensures forall r :: r in image[s].replicas ==> s in ShardsAt(image, image[s].replicas[r].address)
  {}

  lemma LookedListed(log: seq<Update>, ticks: map<string, nat>, kills: seq<ReplicaToKill>)
    requires Holds(log, 70, Img(70, 70), ticks, kills)
    ensures Listed(Looked(LogApplied(log).db), 1)
  {
    hide LogApplied, A, B, C, D, E, ShardsAt, First;
    var ctx := Looked(LogApplied(log).db);
    assert ctx.image[1] == First(70, 70);
    ImagedIn(ctx.image, 1);
    forall r | r in ctx.image[1].replicas && ctx.image[1].replicas[r].address in ctx.hosts
      ensures 1 in ctx.hosts[ctx.image[1].replicas[r].address].shards
    {
      assert 1 in ShardsAt(ctx.image, ctx.image[1].replicas[r].address);
    }
  }

  // How the replicas stand at tick 70.
  lemma Standing()
    ensures var one := First(70, 70);
            FailedIds(one, 70) == {3} && OkIds(one, 70) == {1, 2} && WaitingIds(one, 70) == {} && |one.replicas| == 3
    ensures First(70, 70).shardId == 1 && First(70, 70).index == 10 && First(70, 70).replicas.Keys == {1, 2, 3}
    ensures 7 in WaitingIds(SECOND, 70)
  {
    hide A, B, C, D, E;
    assert First(70, 70).replicas.Keys == {1, 2, 3};
  }

  // What is known of the hosts at tick 70.
  ghost predicate HostsKnown(ctx: Context)
  {
    && ctx.hosts.Keys == {A, B, C, D, E} && ctx.tick == 70 && ctx.shards == [DEF1, DEF2] && ctx.image == Img(70, 70)
    && 1 in ctx.hosts[A].shards && 1 in ctx.hosts[B].shards
    && ctx.hosts[C].tick == 5 && ctx.hosts[D].tick == 70 && ctx.hosts[E].tick == 5
  }

  lemma KnownHosts(log: seq<Update>, kills: seq<ReplicaToKill>)
    requires Holds(log, 70, Img(70, 70), HEARD[D := 70], kills)
    ensures HostsKnown(Looked(LogApplied(log).db))
  {
    hide LogApplied, A, B, C, D, E, ShardsAt, Img;
    NamesDiffer();
    ImagedAt(70, 70);
    var ctx := Looked(LogApplied(log).db);
    assert HEARD[D := 70].Keys == {A, B, C, D, E};
    assert A in ctx.hosts && B in ctx.hosts && C in ctx.hosts && D in ctx.hosts && E in ctx.hosts;
  }

  lemma NoneSpare(ctx: Context)
    requires HostsKnown(ctx) && 1 in ctx.hosts[D].shards
    ensures forall a :: !Suitable(ctx, 1, a)
    ensures RestorableIds(ctx, First(70, 70)) == {}
  {
    hide A, B, C, D, E, Img;
    forall a
      ensures !Suitable(ctx, 1, a)
    {
      assert a in ctx.hosts ==> a in {A, B, C, D, E};
    }
    Standing();
    forall r | r in First(70, 70).replicas
      ensures !CanRestore(ctx, First(70, 70), r)
    {
      assert r in FailedIds(First(70, 70), 70) ==> r == 3;
      assert First(70, 70).replicas[3].address == C;
      assert !ctx.hosts[C].Available(70);
    }
  }

  lemma OneIsStuck(ctx: Context)
    requires HostsKnown(ctx) && (forall a :: !Suitable(ctx, 1, a)) && RestorableIds(ctx, First(70, 70)) == {}
    ensures Stuck(ctx, 1) && !BeingRestored(ctx, 1) && NeedsRepair(ctx, 2) && !Stuck(ctx, 2)
  {
    hide A, B, C, D, E, Suitable, RestorableIds, First, FailedIds, OkIds, WaitingIds;
    Standing();
    assert ctx.image[1] == First(70, 70) && ctx.image[2] == SECOND;
    assert ctx.shards[0] == DEF1 && ctx.shards[1] == DEF2;
    assert ExpectedSize(ctx, 1) == 3;
  }

  // One stuck shard is enough: shard 1 lacks a host for its ADD, so the replica of shard 2 that waits
  // to be started is not started and the zombie is not killed.
  lemma OneStuckStopsAll() returns (log: seq<Update>, ctx: Context)
    ensures LogApplied(log).DbOk? && ContextOf(ctx, LogApplied(log).db) && WellKeyed(ctx) && Defined(ctx)
    ensures Stuck(ctx, 1) && NeedsRepair(ctx, 2) && !Stuck(ctx, 2) && ctx.kills != []
    ensures forall result :: Maintained(ctx, result) ==> result.NotEnoughNodeHost?
  {
    hide LogApplied, A, B, C, D, E, ReportApplied, HostsAre, HostsKnown, Stuck, NeedsRepair, BeingRestored, ContextOf, WellKeyed,
      Defined, RestorableIds, First;
    LogHolds();
    ZombieHeard();
    ReportHeld(LOG, 70, Img(70, 70), HEARD, [], Says(D, ZOMBIE).nhi, Img(70, 70), HEARD[D := 70], [ReplicaToKill(1, 9, D)]);
    log := LOG + [Says(D, ZOMBIE)];
    LookedIs(log, HEARD[D := 70], [ReplicaToKill(1, 9, D)]);
    ctx := Looked(LogApplied(log).db);
    KnownHosts(log, [ReplicaToKill(1, 9, D)]);
    NoneSpare(ctx);
    OneIsStuck(ctx);
  }

  // ----- a lost quorum

  // A host that runs nothing.
  function Idle(a: string): NodeHostInfo
  {
    NodeHostInfo(a, "", "r", 0, [], [], true, [])
  }

  lemma NothingHeard(image: Image, a: string, now: nat)
    ensures ReportApplied(image, [], a, now) == Reported(image, [])
  {
    TickedNothing(image, now);
  }

  const GROW: Request := Request(ADD, 1, [4], 10, A, [], [D], 0, false, false, "")

  lemma FirstTicks()
    ensures TicksOk(First(70, 70), 70)
  {
    hide A, B, C;
  }

  lemma OneStands(ctx: Context)
    requires HostsKnown(ctx)
    ensures Stands(ctx, 1, 3, 1, 0)
  {
    hide A, B, C, D, E, First, FailedIds, OkIds, WaitingIds;
    Standing();
    FirstMembers(70, 70);
    assert ctx.image[1] == First(70, 70);
    assert ctx.shards[0] == DEF1;
    assert ExpectedSize(ctx, 1) == 3;
    FirstTicks();
  }

  lemma MayGrow(ctx: Context)
    requires HostsKnown(ctx) && 1 !in ctx.hosts[D].shards
    ensures MayRepair(ctx, GROW)
  {
    OneStands(ctx);
    WhatIsNeeded(ctx, 1, 3, 1, 0);
    hide A, B, C, D, E, DeleteNeeded, CreateNeeded, AddNeeded, ExpectedSize;
    assert ctx.image[1] == First(70, 70);
    assert First(70, 70).replicas[1].address == A && 1 in OkIds(First(70, 70), 70) by { Standing(); }
  }

  // The ADD for a shard of three with one failed replica leaves it without a quorum.
  lemma QuorumLost() returns (log: seq<Update>, ctx: Context, ids: seq<nat>, ctx': Context)
    ensures LogApplied(log).DbOk? && ContextOf(ctx, LogApplied(log).db) && WellKeyed(ctx) && Defined(ctx)
    ensures Stands(ctx, 1, 3, 1, 0) && QuietRound(ctx, 1, GROW, ids, 11, 0, ctx') && HostsFollow(ctx, ctx')
    ensures ctx'.tick == ctx.tick + TICK_INTERVAL_SECOND && 1 in ctx'.image
    ensures Available(ctx.image[1], ctx.tick) && !Available(ctx'.image[1], ctx'.tick)
  {
    hide LogApplied, A, B, C, D, E, ReportApplied, HostsAre, HostsKnown, ContextOf, WellKeyed, Defined, First, Stands, Listed,
      MayRepair, QuietRound, HostsFollow, OkIds, Available;
    LogHolds();
    NothingHeard(Img(70, 70), D, 70);
    ReportHeld(LOG, 70, Img(70, 70), HEARD, [], Idle(D), Img(70, 70), HEARD[D := 70], []);
    log := LOG + [NodeHostUpdate(Idle(D))];
    LookedIs(log, HEARD[D := 70], []);
    LookedListed(log, HEARD[D := 70], []);
    ctx := Looked(LogApplied(log).db);
    KnownHosts(log, []);
    ImagedAt(70, 70);
    OneStands(ctx);
    MayGrow(ctx);
    WhatIsNeeded(ctx, 1, 3, 1, 0);
    StandsMeans(ctx, 1, 3, 1, 0);
    Standing();
    assert ctx.image[1] == First(70, 70);
    ids, ctx' := RoundExists(ctx, 1, GROW, 11, 0, 75);
    QuorumAfterAdd(ctx, 1, 3, 1, GROW, ids, 11, 0, ctx');
  }

  // ----- a launch that crashes

  const LONE: ShardDef := ShardDef(1, [7], "app")

  lemma LoneApplied()
    ensures LogApplied([ShardUpdate(LONE)]) == DbOk(EMPTY_DB.(shards := map[1 := LONE]))
  {
    LogSnoc([], ShardUpdate(LONE));
    assert [] + [ShardUpdate(LONE)] == [ShardUpdate(LONE)];
  }

  lemma IdleApplied(d: DbState, a: string)
    requires d.image == map[] && d.kills == [] && d.launchDeadline == 0 && d.tick == 0 && a !in d.hosts
    ensures ReportStored(d, Idle(a)).DbOk?
    ensures var d' := ReportStored(d, Idle(a)).db;
            && d'.image == map[] && d'.kills == [] && d'.launchDeadline == 0 && d'.tick == 0 && d'.shards == d.shards
            && d'.hosts == d.hosts[a := HostSpec(a, "", "r", 0, [], {})]
  {
    StoredIs(d, Idle(a));
    NothingHeard(d.image, a, 0);
    hide ReportApplied, ReportStored, LaunchedShards;
    var hosts := d.hosts[a := HostSpec(a, "", "r", 0, [], {})];
    assert IdSet([]) == {} && HostReported(d.hosts, Idle(a)) == hosts;
    forall x | x in hosts
      ensures HostsSynced(hosts, map[])[x] == hosts[x]
    {
      assert hosts[x].shards + ShardsAt(map[], x) == hosts[x].shards;
    }
  }

  // Two idle hosts report to a database with one shard of one member, and the region they are in is to
  // give two hosts.
  lemma MoreHostsThanMembers() returns (log: seq<Update>, ctx: Context)
    ensures LogApplied(log).DbOk? && ContextOf(ctx, LogApplied(log).db) && WellKeyed(ctx) && Defined(ctx)
    ensures DistinctRegions(ctx.regions) && FirstOff(ctx, 0) && Surplus(ctx, ctx.shards[0]) > 0
  {
    hide LogApplied, ReportStored;
    var a, b := HostSpec("a", "", "r", 0, [], {}), HostSpec("b", "", "r", 0, [], {});
    var one := [ShardUpdate(LONE)];
    var two := one + [NodeHostUpdate(Idle("a"))];
    log := two + [NodeHostUpdate(Idle("b"))];
    LoneApplied();
    LogSnoc(one, NodeHostUpdate(Idle("a")));
    IdleApplied(LogApplied(one).db, "a");
    LogSnoc(two, NodeHostUpdate(Idle("b")));
    IdleApplied(LogApplied(two).db, "b");
    ctx := Context(0, [LONE], [("r", 2)], map[], LogApplied(log).db.hosts, []);
    assert ctx.hosts == map["a" := a, "b" := b];
    assert Passing(ctx, 1, "r") == {"a", "b"};
    assert "a" != "b";
    assert ctx.regions[..0] == [] && DrawnFrom(ctx, 1, []) == 0;
    assert ctx.shards[0] == LONE;
  }
}
