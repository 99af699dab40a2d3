// Repair converges: what a sequence of scheduling rounds does to one shard when every request is
// carried out, live replicas keep reporting and nothing else happens.
module Repair {
  import opened Basics
  import opened ShardImage
  import opened HostImage
  import opened Scheduler

  // ----- a round of reports

  function Entry(s: nat, r: nat, index: nat, members: map<nat, string>, leader: nat): ShardInfo
  {
    ShardInfo(s, r, r == leader, members, index, false, false)
  }

  // The replicas in ids report, each from its host, the same membership.
  function Heard(image: Image, s: nat, ids: seq<nat>, index: nat, members: map<nat, string>, leader: nat, now: nat): ReportOutcome
    requires forall r :: r in ids ==> r in members
  {
    if ids == [] then Reported(image, [])
    else
      var r := ids[|ids| - 1];
      match Heard(image, s, ids[..|ids| - 1], index, members, leader, now)
      case ReportPanic => ReportPanic
      case Reported(before, _) => ReportApplied(before, [Entry(s, r, index, members, leader)], members[r], now)
  }

  // The membership follows from what the record knows already.
  ghost predicate Fits(c: ShardRecord, index: nat, members: map<nat, string>)
  {
    && (c.index < index || (c.index == index && c.replicas.Keys == members.Keys))
    && (forall r :: r in c.replicas && r in members ==> c.replicas[r].address == members[r])
    && DistinctAddresses(members)
  }

  ghost predicate MovedReplica(c: ShardRecord, c': ShardRecord, live: set<nat>, members: map<nat, string>, now: nat, r: nat)
    requires r in members && r in c'.replicas
  {
    var n := c'.replicas[r];
    && n.address == members[r]
    && n.tick == (if r in live then now else if r in c.replicas then c.replicas[r].tick else 0)
    && n.firstObserved == (if r in c.replicas then c.replicas[r].firstObserved else now)
  }

  // c' is c brought to this membership, with the replicas in `live` heard of now.
  ghost predicate Moved(c: ShardRecord, c': ShardRecord, live: set<nat>, index: nat, members: map<nat, string>, now: nat)
  {
    && c'.shardId == c.shardId && c'.index == index
    && c'.replicas.Keys == members.Keys
    && forall r :: r in members ==> MovedReplica(c, c', live, members, now, r)
  }

  lemma SyncedOne(image: Image, s: nat, ci: ShardInfo, now: nat)
    requires s in image && image[s].shardId == s && Fits(image[s], ci.index, ci.replicas)
    requires ci.shardId == s && !ci.pending && !ci.incomplete
    ensures InfosApplied(image, [ci], now)
            == Updated(image[s := ShardRecord(s, ci.index, Resynced(image[s], ci, now))], [])
  {
    assert [ci][..0] == [];
    assert InfosApplied(image, [], now) == Updated(image, []);
  }

  // Leadership does not touch what Moved speaks of.
  lemma LeadersOfOne(image: Image, ci: ShardInfo, s: nat)
    requires s in image
    ensures s in LeadersApplied(image, [ci])
    ensures var c, c' := image[s], LeadersApplied(image, [ci])[s];
            && c'.shardId == c.shardId && c'.index == c.index && c'.replicas.Keys == c.replicas.Keys
            && forall r :: r in c.replicas ==>
                 c'.replicas[r].address == c.replicas[r].address && c'.replicas[r].tick == c.replicas[r].tick
                 && c'.replicas[r].firstObserved == c.replicas[r].firstObserved
  {
    assert [ci][..0] == [];
    assert LeadersApplied(image, []) == image;
  }

  lemma HeardTicks(image: Image, ci: ShardInfo, now: nat, s: nat)
    requires s in image && ci.shardId == s
    ensures s in Ticked(image, [ci], now)
    ensures Ticked(image, [ci], now)[s] == image[s].(replicas := map r | r in image[s].replicas ::
              if r == ci.replicaId then image[s].replicas[r].(tick := now) else image[s].replicas[r])
  {
    forall r
      ensures Reports([ci], s, r) <==> r == ci.replicaId
    {
      assert [ci][0] == ci;
    }
  }

  lemma OneHeard(image: Image, s: nat, r: nat, index: nat, members: map<nat, string>, leader: nat, now: nat)
    requires s in image && image[s].shardId == s && Fits(image[s], index, members) && r in members
    ensures var outcome := ReportApplied(image, [Entry(s, r, index, members, leader)], members[r], now);
            && outcome.Reported? && s in outcome.image
            && Moved(image[s], outcome.image[s], {r}, index, members, now)
  {
    hide LeaderApplied, LeadersApplied, Ticked, InfosApplied, DistinctAddresses;
    var ci := Entry(s, r, index, members, leader);
    var synced := InfosApplied(image, [ci], now);
    SyncedOne(image, s, ci, now);
    HeardTicks(synced.image, ci, now, s);
    LeadersOfOne(Ticked(synced.image, [ci], now), ci, s);
  }

  // A round of reports brings the record to the membership with all reporters heard of.
  lemma {:induction false} AllHeard(image: Image, s: nat, ids: seq<nat>, live: set<nat>, index: nat, members: map<nat, string>,
                                    leader: nat, now: nat)
    requires s in image && image[s].shardId == s && Fits(image[s], index, members)
    requires ids != [] && (forall r :: r in ids <==> r in live) && forall r :: r in ids ==> r in members
    ensures var outcome := Heard(image, s, ids, index, members, leader, now);
            && outcome.Reported? && s in outcome.image
            && Moved(image[s], outcome.image[s], live, index, members, now)
    decreases ids
  {
    hide ReportApplied, DistinctAddresses;
    var r := ids[|ids| - 1];
    var rest := ids[..|ids| - 1];
    assert ids == rest + [r];
    if rest == [] {
      assert Heard(image, s, [], index, members, leader, now) == Reported(image, []);
      OneHeard(image, s, r, index, members, leader, now);
    } else {
      AllHeard(image, s, rest, (set x | x in rest), index, members, leader, now);
      var before := Heard(image, s, rest, index, members, leader, now).image;
      OneHeard(before, s, r, index, members, leader, now);
    }
  }

  // ----- how a shard is classified afterwards

  ghost predicate TicksOk(c: ShardRecord, now: nat)
  {
    forall r :: r in c.replicas ==> c.replicas[r].tick <= now
  }

  lemma OneClass(c: ShardRecord, c': ShardRecord, live: set<nat>, members: map<nat, string>, now: nat, now': nat, r: nat)
    requires TicksOk(c, now) && 0 < now < now' < TWO_64 && live !! FailedIds(c, now)
    requires r in members && r in c'.replicas && MovedReplica(c, c', live, members, now', r)
    requires r in OkIds(c, now) ==> r in live
    ensures c'.replicas[r].tick <= now'
    ensures c'.replicas[r].Failed(now') <==> r in FailedIds(c, now)
    ensures c'.replicas[r].Ok(now') <==> r in live
    ensures c'.replicas[r].Waiting(now') <==> r !in FailedIds(c, now) && r !in live
  {}

  lemma IdsInside(c: ShardRecord, tick: nat)
    ensures FailedIds(c, tick) <= c.replicas.Keys && OkIds(c, tick) <= c.replicas.Keys && WaitingIds(c, tick) <= c.replicas.Keys
  {}

  // What was failed stays failed, what reported is ok, and the rest has yet to start.
  lemma Classes(c: ShardRecord, c': ShardRecord, live: set<nat>, index: nat, members: map<nat, string>, now: nat, now': nat)
    requires Moved(c, c', live, index, members, now') && TicksOk(c, now) && 0 < now < now' < TWO_64
    requires live <= members.Keys && live !! FailedIds(c, now) && OkIds(c, now) * members.Keys <= live
    ensures TicksOk(c', now')
    ensures FailedIds(c', now') == FailedIds(c, now) * members.Keys
    ensures OkIds(c', now') == live
    ensures WaitingIds(c', now') == members.Keys - FailedIds(c, now) - live
  {
    hide EntityFailed, MovedReplica;
    forall r | r in members
      ensures c'.replicas[r].tick <= now'
      ensures r in FailedIds(c', now') <==> r in FailedIds(c, now)
      ensures r in OkIds(c', now') <==> r in live
      ensures r in WaitingIds(c', now') <==> r !in FailedIds(c, now) && r !in live
    {
      OneClass(c, c', live, members, now, now', r);
    }
    hide FailedIds, OkIds, WaitingIds;
    IdsInside(c', now');
  }

  // ----- one repair step

  // The membership once q is carried out.
  ghost function MembersAfter(c: ShardRecord, q: Request): map<nat, string>
    requires q.kind in {ADD, DELETE} ==> |q.members| == 1
    requires q.kind == ADD ==> |q.addressList| == 1
  {
    match q.kind
    case ADD => Members(c)[q.members[0] := q.addressList[0]]
    case DELETE => Members(c) - {q.members[0]}
    case _ => Members(c)
  }

  // Those that report: the replicas that were ok, and one just created.
  ghost function LiveAfter(c: ShardRecord, tick: nat, q: Request): set<nat>
  {
    OkIds(c, tick) + if q.kind == CREATE then {q.instantiateReplicaId} else {}
  }

  // A scheduling round on ctx hands out q for shard s; it is carried out, everyone alive reports,
  // and the next round works on ctx'.
  ghost predicate QuietRound(ctx: Context, s: nat, q: Request, ids: seq<nat>, index: nat, leader: nat, ctx': Context)
  {
    && ctx'.shards == ctx.shards && ctx.tick < ctx'.tick < TWO_64
    && q.shardId == s && MayRepair(ctx, q)
    && var c := ctx.image[s];
       && (q.kind == ADD ==> q.members[0] !in c.replicas && q.addressList[0] !in Members(c).Values)
       && (if q.kind == CREATE then index == c.index else index > c.index)
       && (forall r :: r in ids <==> r in LiveAfter(c, ctx.tick, q))
       && var m := MembersAfter(c, q);
          && (forall r :: r in ids ==> r in m)
          && var outcome := Heard(ctx.image, s, ids, index, m, leader, ctx'.tick);
             && s in ctx'.image && (outcome.Reported? ==> s in outcome.image && ctx'.image[s] == outcome.image[s])
  }

  // Where repair of a shard of defined size e stands: f replicas failed; at 0 the shard has its
  // size, at 1 a replica was added that has yet to start, at 2 it has started.
  ghost predicate Stands(ctx: Context, s: nat, e: nat, f: nat, at: nat)
  {
    && s in ctx.image && ctx.tick > 0 && ExpectedSize(ctx, s) == e
    && var c := ctx.image[s];
       && c.shardId == s && TicksOk(c, ctx.tick) && DistinctAddresses(Members(c))
       && at <= 2 && (at > 0 ==> f > 0)
       && |FailedIds(c, ctx.tick)| == f && |WaitingIds(c, ctx.tick)| == (if at == 1 then 1 else 0)
       && |OkIds(c, ctx.tick)| + f == e + (if at == 2 then 1 else 0)
       && e - f >= e / 2 + 1
  }

  function KindAt(at: nat): Kind
  {
    if at == 0 then ADD else if at == 1 then CREATE else DELETE
  }

  lemma WhatIsNeeded(ctx: Context, s: nat, e: nat, f: nat, at: nat)
    requires Stands(ctx, s, e, f, at)
    ensures var c := ctx.image[s];
            && |c.replicas| == e + (if at == 0 then 0 else 1)
            && (Available(c, ctx.tick) <==> at != 1 || e - f >= (e + 1) / 2 + 1)
            && (DeleteNeeded(c, ctx.tick, e) <==> at == 2)
            && (CreateNeeded(c, ctx.tick) <==> at == 1)
            && (AddNeeded(c, ctx.tick) <==> (at == 0 && f > 0) || at == 2)
    ensures NeedsRepair(ctx, s) <==> f > 0
    ensures !RestoreNeeded(ctx.image[s], ctx.tick)
  {
    Partition(ctx.image[s], ctx.tick);
    hide FailedIds, OkIds, WaitingIds;
  }

  lemma SameValues(c: ShardRecord)
    ensures Members(c).Keys == c.replicas.Keys && |Members(c)| == |c.replicas|
  {
    assert Members(c).Keys == c.replicas.Keys;
  }

  lemma DistinctStays(m: map<nat, string>, q: Request)
    requires DistinctAddresses(m)
    requires q.kind in {ADD, DELETE} ==> |q.members| == 1
    requires q.kind == ADD ==> |q.addressList| == 1 && q.members[0] !in m && q.addressList[0] !in m.Values
    ensures q.kind == ADD ==> DistinctAddresses(m[q.members[0] := q.addressList[0]])
    ensures q.kind == DELETE ==> DistinctAddresses(m - {q.members[0]})
  {
    if q.kind == ADD {
      forall x | x in m
        ensures m[x] != q.addressList[0]
      {
        assert m[x] in m.Values;
      }
    }
  }

  // The shape of a request for repair.
  lemma RepairShape(ctx: Context, q: Request)
    requires MayRepair(ctx, q)
    ensures q.kind in {ADD, DELETE} ==> |q.members| == 1
    ensures q.kind == ADD ==> |q.addressList| == 1
    ensures q.kind != KILL
  {}

  // The membership after a change fits the record.
  lemma ChangeFits(c: ShardRecord, q: Request, index: nat)
    requires DistinctAddresses(Members(c)) && q.kind != KILL
    requires q.kind in {ADD, DELETE} ==> |q.members| == 1
    requires q.kind == ADD ==> |q.addressList| == 1 && q.members[0] !in c.replicas && q.addressList[0] !in Members(c).Values
    requires if q.kind == CREATE then index == c.index else index > c.index
    ensures Fits(c, index, MembersAfter(c, q))
  {
    hide DistinctAddresses;
    SameValues(c);
    DistinctStays(Members(c), q);
  }

  lemma NextFits(ctx: Context, s: nat, q: Request, ids: seq<nat>, index: nat, leader: nat, ctx': Context)
    requires s in ctx.image && DistinctAddresses(Members(ctx.image[s]))
    requires QuietRound(ctx, s, q, ids, index, leader, ctx')
    ensures Fits(ctx.image[s], index, MembersAfter(ctx.image[s], q))
  {
    RepairShape(ctx, q);
    hide Heard, MayRepair, DistinctAddresses;
    ChangeFits(ctx.image[s], q, index);
  }

  lemma RoundReports(ctx: Context, s: nat, q: Request, ids: seq<nat>, index: nat, leader: nat, ctx': Context)
    requires s in ctx.image && OkIds(ctx.image[s], ctx.tick) != {} && QuietRound(ctx, s, q, ids, index, leader, ctx')
    ensures MayRepair(ctx, q) && (q.kind in {ADD, DELETE} ==> |q.members| == 1) && (q.kind == ADD ==> |q.addressList| == 1)
    ensures ids != [] && (forall r :: r in ids <==> r in LiveAfter(ctx.image[s], ctx.tick, q))
    ensures var m := MembersAfter(ctx.image[s], q);
            && (forall r :: r in ids ==> r in m) && s in ctx'.image
            && var outcome := Heard(ctx.image, s, ids, index, m, leader, ctx'.tick);
               (outcome.Reported? ==> s in outcome.image && ctx'.image[s] == outcome.image[s])
  {
    RepairShape(ctx, q);
    hide Heard, MayRepair, OkIds, MembersAfter;
    var r :| r in OkIds(ctx.image[s], ctx.tick);
    assert r in LiveAfter(ctx.image[s], ctx.tick, q);
  }

  // A quiet round moves the record to the new membership.
  lemma RoundMoves(ctx: Context, s: nat, q: Request, ids: seq<nat>, index: nat, leader: nat, ctx': Context)
    requires s in ctx.image && ctx.image[s].shardId == s && DistinctAddresses(Members(ctx.image[s]))
    requires OkIds(ctx.image[s], ctx.tick) != {}
    requires QuietRound(ctx, s, q, ids, index, leader, ctx')
    ensures var c := ctx.image[s];
            && s in ctx'.image && Heard(ctx.image, s, ids, index, MembersAfter(c, q), leader, ctx'.tick).Reported?
            && Moved(c, ctx'.image[s], LiveAfter(c, ctx.tick, q), index, MembersAfter(c, q), ctx'.tick)
    ensures LiveAfter(ctx.image[s], ctx.tick, q) <= MembersAfter(ctx.image[s], q).Keys
  {
    hide QuietRound, Heard, MayRepair, Fits, Moved, OkIds, DistinctAddresses, MembersAfter, LiveAfter, Members;
    RoundReports(ctx, s, q, ids, index, leader, ctx');
    NextFits(ctx, s, q, ids, index, leader, ctx');
    var m := MembersAfter(ctx.image[s], q);
    var live := LiveAfter(ctx.image[s], ctx.tick, q);
    AllHeard(ctx.image, s, ids, live, index, m, leader, ctx'.tick);
    assert forall x :: x in live ==> x in ids && x in m;
  }

  lemma MovedMembers(c: ShardRecord, c': ShardRecord, live: set<nat>, index: nat, members: map<nat, string>, now: nat)
    requires Moved(c, c', live, index, members, now)
    ensures Members(c') == members
  {}

  lemma ExpectedStays(ctx: Context, ctx': Context, s: nat)
    requires ctx'.shards == ctx.shards
    ensures ExpectedSize(ctx', s) == ExpectedSize(ctx, s)
  {}

  // The sets of failed, ok and waiting replicas once q is carried out.
  ghost predicate SetsMoved(c: ShardRecord, tick: nat, q: Request, keys: set<nat>)
  {
    var f, o, live := FailedIds(c, tick), OkIds(c, tick), LiveAfter(c, tick, q);
    && live !! f && o * keys <= live
    && |f * keys| == |f| - (if q.kind == DELETE then 1 else 0)
    && |live| == |o| + (if q.kind == CREATE then 1 else 0)
    && |keys - f - live| == (if q.kind == ADD then 1 else 0)
  }

  lemma AddMovesSets(c: ShardRecord, tick: nat, q: Request)
    requires q.kind == ADD && |q.members| == 1 && q.members[0] !in c.replicas && WaitingIds(c, tick) == {}
    ensures SetsMoved(c, tick, q, c.replicas.Keys + {q.members[0]})
  {
    Partition(c, tick);
    hide FailedIds, OkIds, WaitingIds;
    var keys, f, o := c.replicas.Keys + {q.members[0]}, FailedIds(c, tick), OkIds(c, tick);
    assert f * keys == f && keys - f - o == {q.members[0]};
  }

  lemma CreateMovesSets(c: ShardRecord, tick: nat, q: Request)
    requires q.kind == CREATE && q.instantiateReplicaId in WaitingIds(c, tick) && |WaitingIds(c, tick)| == 1
    ensures SetsMoved(c, tick, q, c.replicas.Keys)
  {
    Partition(c, tick);
    hide FailedIds, OkIds, WaitingIds;
    SingletonOf(WaitingIds(c, tick), q.instantiateReplicaId);
    var keys, f := c.replicas.Keys, FailedIds(c, tick);
    assert f * keys == f && keys - f - LiveAfter(c, tick, q) == {};
  }

  lemma DeleteMovesSets(c: ShardRecord, tick: nat, q: Request)
    requires q.kind == DELETE && |q.members| == 1 && q.members[0] in FailedIds(c, tick) && WaitingIds(c, tick) == {}
    ensures SetsMoved(c, tick, q, c.replicas.Keys - {q.members[0]})
  {
    Partition(c, tick);
    hide FailedIds, OkIds, WaitingIds;
    var keys, f, o := c.replicas.Keys - {q.members[0]}, FailedIds(c, tick), OkIds(c, tick);
    assert f * keys == f - {q.members[0]} && keys - f - o == {};
  }

  lemma SetsMove(c: ShardRecord, tick: nat, q: Request)
    requires q.kind in {ADD, DELETE} ==> |q.members| == 1
    requires q.kind == ADD ==> |q.addressList| == 1 && q.members[0] !in c.replicas && WaitingIds(c, tick) == {}
    requires q.kind == DELETE ==> q.members[0] in FailedIds(c, tick) && WaitingIds(c, tick) == {}
    requires q.kind == CREATE ==> q.instantiateReplicaId in WaitingIds(c, tick) && |WaitingIds(c, tick)| == 1
    requires q.kind != KILL
    ensures SetsMoved(c, tick, q, MembersAfter(c, q).Keys)
  {
    hide SetsMoved, FailedIds, WaitingIds, OkIds;
    SameValues(c);
    match q.kind {
      case ADD =>
        AddMovesSets(c, tick, q);
        assert MembersAfter(c, q).Keys == c.replicas.Keys + {q.members[0]};
      case CREATE => CreateMovesSets(c, tick, q);
      case DELETE =>
        DeleteMovesSets(c, tick, q);
        assert MembersAfter(c, q).Keys == c.replicas.Keys - {q.members[0]};
    }
  }

  // What the specification of repair asks for where repair stands.
  lemma KindsFit(ctx: Context, s: nat, e: nat, f: nat, at: nat, q: Request)
    requires Stands(ctx, s, e, f, at) && MayRepair(ctx, q) && q.shardId == s
    ensures q.kind == KindAt(at) && f > 0
    ensures q.kind == CREATE ==> q.instantiateReplicaId in WaitingIds(ctx.image[s], ctx.tick)
    ensures q.kind == DELETE ==> q.members[0] in FailedIds(ctx.image[s], ctx.tick)
  {
    WhatIsNeeded(ctx, s, e, f, at);
    hide FailedIds, OkIds, WaitingIds, DeleteNeeded, CreateNeeded, AddNeeded, ExpectedSize;
  }

  lemma RoundFacts(ctx: Context, s: nat, q: Request, ids: seq<nat>, index: nat, leader: nat, ctx': Context)
    requires QuietRound(ctx, s, q, ids, index, leader, ctx')
    ensures ctx.tick < ctx'.tick < TWO_64 && MayRepair(ctx, q) && q.shardId == s && ExpectedSize(ctx', s) == ExpectedSize(ctx, s)
    ensures q.kind == ADD ==> |q.members| == 1 && q.members[0] !in ctx.image[s].replicas
  {
    hide Heard, MembersAfter, LiveAfter;
    ExpectedStays(ctx, ctx', s);
  }

  lemma FitsDistinct(c: ShardRecord, index: nat, members: map<nat, string>)
    requires Fits(c, index, members)
    ensures DistinctAddresses(members)
  {}

  lemma ShardIdKept(c: ShardRecord, c': ShardRecord, live: set<nat>, index: nat, members: map<nat, string>, now: nat)
    requires Moved(c, c', live, index, members, now)
    ensures c'.shardId == c.shardId
  {}

  // One quiet round takes repair one step on: ADD, CREATE, DELETE in turn.
  lemma StepTaken(ctx: Context, s: nat, e: nat, f: nat, at: nat, q: Request, ids: seq<nat>, index: nat, leader: nat, ctx': Context)
    requires Stands(ctx, s, e, f, at) && QuietRound(ctx, s, q, ids, index, leader, ctx')
    ensures q.kind == KindAt(at) && f > 0
    ensures if at == 2 then Stands(ctx', s, e, f - 1, 0) else Stands(ctx', s, e, f, at + 1)
  {
    hide QuietRound, MayRepair, EntityFailed, FailedIds, OkIds, WaitingIds, DistinctAddresses, ExpectedSize, Moved, TicksOk,
      Members, MembersAfter, LiveAfter, Fits, Heard;
    var c := ctx.image[s];
    RoundFacts(ctx, s, q, ids, index, leader, ctx');
    RepairShape(ctx, q);
    KindsFit(ctx, s, e, f, at, q);
    RoundMoves(ctx, s, q, ids, index, leader, ctx');
    NextFits(ctx, s, q, ids, index, leader, ctx');
    FitsDistinct(c, index, MembersAfter(c, q));
    SetsMove(c, ctx.tick, q);
    var live, m := LiveAfter(c, ctx.tick, q), MembersAfter(c, q);
    Classes(c, ctx'.image[s], live, index, m, ctx.tick, ctx'.tick);
    MovedMembers(c, ctx'.image[s], live, index, m, ctx'.tick);
    ShardIdKept(c, ctx'.image[s], live, index, m, ctx'.tick);
  }

  // ----- whole repairs

  ghost predicate SomeQuietRound(ctx: Context, s: nat, q: Request, ctx': Context)
  {
    exists ids, index, leader :: QuietRound(ctx, s, q, ids, index, leader, ctx')
  }

  // qs are handed out in turn, each carried out before the next round.
  ghost predicate QuietRun(ctxs: seq<Context>, s: nat, qs: seq<Request>)
  {
    && |ctxs| == |qs| + 1
    && forall i :: 0 <= i < |qs| ==> SomeQuietRound(ctxs[i], s, qs[i], ctxs[i + 1])
  }

  lemma StandsNeeds(ctx: Context, s: nat, e: nat, f: nat, at: nat)
    requires Stands(ctx, s, e, f, at)
    ensures NeedsRepair(ctx, s) <==> f > 0
    ensures at <= 2 && (at > 0 ==> f > 0)
  {
    WhatIsNeeded(ctx, s, e, f, at);
  }

  // From an available shard of its defined size e with f replicas failed and none waiting: after
  // i requests 3f - i are left to do. So the i-th is an ADD, a CREATE or a DELETE by its place in
  // the cycle, there are never more than 3f, and while fewer have been handed out the shard still
  // needs repair.
  lemma {:induction false} RepairProgress(ctxs: seq<Context>, s: nat, qs: seq<Request>, e: nat, f: nat)
    requires QuietRun(ctxs, s, qs) && Stands(ctxs[0], s, e, f, 0)
    ensures |qs| <= 3 * f
    ensures Stands(ctxs[|qs|], s, e, f - |qs| / 3, |qs| % 3)
    ensures forall i :: 0 <= i < |qs| ==> qs[i].kind == KindAt(i % 3)
    ensures NeedsRepair(ctxs[|qs|], s) <==> |qs| < 3 * f
    decreases |qs|
  {
    hide Stands, QuietRound, NeedsRepair;
    var n := |qs|;
    if n > 0 {
      assert QuietRun(ctxs[..n], s, qs[..n - 1]);
      RepairProgress(ctxs[..n], s, qs[..n - 1], e, f);
      var done := n - 1;
      var g := f - done / 3;
      assert SomeQuietRound(ctxs[n - 1], s, qs[n - 1], ctxs[n]);
      var ids, index, leader :| QuietRound(ctxs[n - 1], s, qs[n - 1], ids, index, leader, ctxs[n]);
      StepTaken(ctxs[n - 1], s, e, g, done % 3, qs[n - 1], ids, index, leader, ctxs[n]);
    }
    StandsNeeds(ctxs[n], s, e, f - n / 3, n % 3);
  }

  // When repair has nothing left to do it has issued exactly f cycles, and the shard has e
  // replicas, all of them live.
  lemma RepairConverges(ctxs: seq<Context>, s: nat, qs: seq<Request>, e: nat, f: nat)
    requires QuietRun(ctxs, s, qs) && Stands(ctxs[0], s, e, f, 0) && !NeedsRepair(ctxs[|qs|], s)
    ensures |qs| == 3 * f
    ensures var last := ctxs[|qs|];
            s in last.image && |last.image[s].replicas| == e
            && OkIds(last.image[s], last.tick) == last.image[s].replicas.Keys
  {
    RepairProgress(ctxs, s, qs, e, f);
    hide QuietRun, NeedsRepair;
    var last := ctxs[|qs|];
    Partition(last.image[s], last.tick);
    assert FailedIds(last.image[s], last.tick) == {};
  }

  // ----- repair goes on

  // Every known host that holds an imaged replica of the shard is listed with it.
  ghost predicate Listed(ctx: Context, s: nat)
    requires s in ctx.image
  {
    forall r :: r in ctx.image[s].replicas && ctx.image[s].replicas[r].address in ctx.hosts ==>
      s in ctx.hosts[ctx.image[s].replicas[r].address].shards
  }

  lemma {:induction false} Sequence(ids: set<nat>) returns (list: seq<nat>)
    ensures |list| == |ids| && forall r :: r in list <==> r in ids
    decreases ids
  {
    if ids == {} {
      list := [];
    } else {
      var r :| r in ids;
      var rest := Sequence(ids - {r});
      list := rest + [r];
    }
  }

  // Unless some shard is stuck, a round of maintenance hands out the request at which repair stands.
  lemma RequestHandedOut(ctx: Context, s: nat, e: nat, f: nat, at: nat, result: Requests) returns (q: Request)
    requires Stands(ctx, s, e, f, at) && f > 0 && !BeingRestored(ctx, s)
    requires Maintained(ctx, result) && forall t :: Stuck(ctx, t) ==> BeingRestored(ctx, t)
    ensures result.Requests? && q in result.reqs && q.shardId == s && MayRepair(ctx, q) && q.kind == KindAt(at)
  {
    WhatIsNeeded(ctx, s, e, f, at);
    hide BeingRestored, Stuck, NeedsRepair, Coherent, MayRepair, MayRestore;
    assert RepairedIn(ctx, result.reqs, s);
    q :| q in result.reqs && q.shardId == s && MayRepair(ctx, q) && q.kind != KILL;
    KindsFit(ctx, s, e, f, at, q);
  }

  // A host that can take a replica holds none.
  lemma NewAddress(ctx: Context, q: Request)
    requires MayRepair(ctx, q) && q.kind == ADD && Listed(ctx, q.shardId)
    ensures q.addressList[0] !in Members(ctx.image[q.shardId]).Values
  {
    var c, a := ctx.image[q.shardId], q.addressList[0];
    assert q.shardId !in ctx.hosts[a].shards;
    hide MayRepair;
    forall r | r in c.replicas
      ensures Members(c)[r] != a
    {
    }
  }

  lemma SomeoneLives(c: ShardRecord, tick: nat, q: Request)
    requires OkIds(c, tick) != {}
    ensures exists r :: r in LiveAfter(c, tick, q)
  {
    hide OkIds;
    var r :| r in OkIds(c, tick);
    assert r in LiveAfter(c, tick, q);
  }

  lemma LiveAreMembers(ctx: Context, s: nat, q: Request)
    requires MayRepair(ctx, q) && q.shardId == s
    requires q.kind in {ADD, DELETE} ==> |q.members| == 1
    requires q.kind == ADD ==> |q.addressList| == 1
    ensures forall r :: r in LiveAfter(ctx.image[s], ctx.tick, q) ==> r in MembersAfter(ctx.image[s], q)
  {
    hide EntityFailed, ExpectedSize, Quorum;
    SameValues(ctx.image[s]);
    Partition(ctx.image[s], ctx.tick);
  }

  // ----- the hosts in a round

  // Every host that is up has reported what it was listed with, as RefreshedOne says.
  function Refreshed(hosts: Hosts, tick: nat, now: nat): Hosts
  {
    map a | a in hosts :: if (tick - hosts[a].tick) % TWO_64 < NODE_HOST_TTL then hosts[a].(tick := now) else hosts[a]
  }

  lemma RefreshedOne(hosts: Hosts, nhi: NodeHostInfo)
    requires var a := nhi.raftAddress;
             a in hosts && nhi.region == hosts[a].region && !nhi.plogInfoIncluded && IdSet(nhi.shardIdList) == hosts[a].shards
    ensures var a := nhi.raftAddress; HostReported(hosts, nhi) == hosts[a := hosts[a].(tick := nhi.lastTick)]
  {}

  // The hosts of ctx' are those of ctx after the reports, listed with what ctx' images on them.
  ghost predicate HostsFollow(ctx: Context, ctx': Context)
  {
    ctx'.hosts == HostsSynced(Refreshed(ctx.hosts, ctx.tick, ctx'.tick), ctx'.image)
  }

  lemma ListedAgain(ctx: Context, ctx': Context, s: nat)
    requires HostsFollow(ctx, ctx') && s in ctx'.image
    ensures Listed(ctx', s)
  {}

  // The hosts that could take a new replica of the shard.
  ghost function Spares(ctx: Context, s: nat): set<string>
  {
    set a | a in ctx.hosts && Suitable(ctx, s, a)
  }

  // A spare host stays one unless the new replica goes there.
  lemma SpareStays(ctx: Context, ctx': Context, s: nat, a: string)
    requires HostsFollow(ctx, ctx') && s in ctx'.image && a in Spares(ctx, s)
    requires a !in Members(ctx'.image[s]).Values
    ensures a in Spares(ctx', s)
  {
    assert s !in ShardsAt(ctx'.image, a) by {
      hide Suitable;
      var c := ctx'.image[s];
      forall r | r in c.replicas
        ensures c.replicas[r].address != a
      {
        assert Members(c)[r] in Members(c).Values;
      }
    }
    hide ShardsAt;
    assert ctx'.hosts[a].tick == ctx'.tick;
  }

  lemma AddressesSmaller(a: set<string>, b: set<string>)
    requires a <= b
    ensures |a| <= |b|
  {
    assert b == a + (b - a);
  }

  lemma SparesStay(ctx: Context, ctx': Context, s: nat, q: Request)
    requires s in ctx.image && s in ctx'.image && Listed(ctx, s) && HostsFollow(ctx, ctx') && q.kind != KILL
    requires q.kind in {ADD, DELETE} ==> |q.members| == 1
    requires q.kind == ADD ==> |q.addressList| == 1
    requires Members(ctx'.image[s]) == MembersAfter(ctx.image[s], q)
    ensures |Spares(ctx', s)| >= |Spares(ctx, s)| - if q.kind == ADD then 1 else 0
  {
    hide HostsFollow;
    var c, taken := ctx.image[s], if q.kind == ADD then {q.addressList[0]} else {};
    forall a | a in Spares(ctx, s) - taken
      ensures a in Spares(ctx', s)
    {
      forall r | r in c.replicas
        ensures c.replicas[r].address != a
      {
      }
      SpareStays(ctx, ctx', s, a);
    }
    hide Spares;
    AddressesSmaller(Spares(ctx, s) - taken, Spares(ctx', s));
    assert |Spares(ctx, s) - taken| >= |Spares(ctx, s)| - |taken|;
  }

  // A request that a round hands out can be carried out, and everyone alive can report.
  lemma RoundExists(ctx: Context, s: nat, q: Request, index: nat, leader: nat, tick: nat) returns (ids: seq<nat>, ctx': Context)
    requires s in ctx.image && MayRepair(ctx, q) && q.shardId == s && ctx.tick < tick < TWO_64
    requires ctx.image[s].shardId == s && DistinctAddresses(Members(ctx.image[s])) && Listed(ctx, s)
    requires OkIds(ctx.image[s], ctx.tick) != {}
    requires q.kind == ADD ==> |q.members| == 1 && q.members[0] !in ctx.image[s].replicas
    requires if q.kind == CREATE then index == ctx.image[s].index else index > ctx.image[s].index
    ensures QuietRound(ctx, s, q, ids, index, leader, ctx') && ctx'.tick == tick && HostsFollow(ctx, ctx')
  {
    hide MayRepair, DistinctAddresses, OkIds, Listed, LiveAfter, MembersAfter, Heard, Members, Fits, Moved;
    RepairShape(ctx, q);
    if q.kind == ADD {
      NewAddress(ctx, q);
    }
    var c := ctx.image[s];
    var m, live := MembersAfter(c, q), LiveAfter(c, ctx.tick, q);
    ids := Sequence(live);
    ChangeFits(c, q, index);
    LiveAreMembers(ctx, s, q);
    SomeoneLives(c, ctx.tick, q);
    assert ids != [];
    AllHeard(ctx.image, s, ids, live, index, m, leader, tick);
    var image := Heard(ctx.image, s, ids, index, m, leader, tick).image;
    ctx' := ctx.(tick := tick, image := image, hosts := HostsSynced(Refreshed(ctx.hosts, ctx.tick, tick), image));
  }

  // ----- repair goes on to its end

  // Where repair stands, with a spare host for every ADD that is still to come.
  ghost predicate GoesOn(ctx: Context, s: nat, e: nat, f: nat, at: nat)
  {
    Stands(ctx, s, e, f, at) && Listed(ctx, s) && |Spares(ctx, s)| + (if at > 0 then 1 else 0) >= f
  }

  ghost predicate NewId(ctx: Context, s: nat, q: Request)
  {
    s in ctx.image && (q.kind == ADD ==> |q.members| == 1 && q.members[0] !in ctx.image[s].replicas)
  }

  // The answer of a scheduler that is not bringing replicas of the shard back, with new ids.
  ghost predicate HandsOut(ctx: Context, s: nat, result: Requests)
  {
    && result.Requests? && Maintained(ctx, result) && !BeingRestored(ctx, s)
    && forall q :: q in result.reqs && q.shardId == s && MayRepair(ctx, q) ==> NewId(ctx, s, q)
  }

  lemma {:induction false} NewNumber(ids: set<nat>) returns (n: nat)
    ensures forall r: nat :: r in ids ==> r < n
    decreases ids
  {
    n := 0;
    if ids != {} {
      var r :| r in ids;
      var m := NewNumber(ids - {r});
      n := m + r + 1;
      assert forall x: nat :: x in ids ==> x == r || x in ids - {r};
    }
  }

  lemma CreateFor(ctx: Context, c: ShardRecord, r: nat) returns (q: Request)
    requires r in c.replicas
    ensures CreateOf(c, r, q) && q.join && !q.restore && q.appName == AppName(ctx, c.shardId)
  {
    var ids := Sequence(c.replicas.Keys);
    assert |c.replicas| == |c.replicas.Keys|;
    assert forall x :: x in c.replicas ==> x in c.replicas.Keys && x in ids;
    assert forall k :: 0 <= k < |ids| ==> ids[k] in ids;
    var addresses := seq(|ids|, k requires 0 <= k < |ids| => assert ids[k] in ids; c.replicas[ids[k]].address);
    q := Request(CREATE, c.shardId, ids, 0, c.replicas[r].address, ids, addresses, r, true, false, AppName(ctx, c.shardId));
  }

  // A spare host, in the region of the address if one is there.
  lemma SpareNear(ctx: Context, s: nat, address: string) returns (a: string)
    requires Spares(ctx, s) != {}
    ensures Suitable(ctx, s, a) && Near(ctx, s, address, a)
  {
    hide RegionOf;
    if b :| Suitable(ctx, s, b) && ctx.hosts[b].region == RegionOf(ctx, address) {
      a := b;
    } else {
      a :| a in Spares(ctx, s);
    }
  }

  // There is a request to hand out.
  lemma SomeRequest(ctx: Context, s: nat, e: nat, f: nat, at: nat) returns (q: Request)
    requires GoesOn(ctx, s, e, f, at) && f > 0
    ensures q.shardId == s && MayRepair(ctx, q) && NewId(ctx, s, q)
  {
    WhatIsNeeded(ctx, s, e, f, at);
    hide DeleteNeeded, CreateNeeded, AddNeeded, ExpectedSize, Suitable, Available, Near;
    var c := ctx.image[s];
    var r :| r in OkIds(c, ctx.tick);
    var to := c.replicas[r].address;
    if at == 0 {
      var dead :| dead in FailedIds(c, ctx.tick);
      var a := SpareNear(ctx, s, c.replicas[dead].address);
      var n := NewNumber(c.replicas.Keys);
      q := Request(ADD, s, [n], c.index, to, [], [a], 0, false, false, "");
    } else if at == 1 {
      var w :| w in WaitingIds(c, ctx.tick);
      q := CreateFor(ctx, c, w);
    } else {
      var dead :| dead in FailedIds(c, ctx.tick);
      q := Request(DELETE, s, [dead], c.index, to, [], [], 0, false, false, "");
    }
  }

  lemma NextRequest(ctx: Context, s: nat, e: nat, f: nat, at: nat, result: Requests) returns (q: Request)
    requires GoesOn(ctx, s, e, f, at) && f > 0
    ensures HandsOut(ctx, s, result) ==> q in result.reqs
    ensures q.shardId == s && MayRepair(ctx, q) && NewId(ctx, s, q) && q.kind == KindAt(at)
  {
    hide MayRepair, BeingRestored, NewId, Stands, Stuck, Listed;
    if HandsOut(ctx, s, result) {
      q := RequestHandedOut(ctx, s, e, f, at, result);
    } else {
      q := SomeRequest(ctx, s, e, f, at);
      KindsFit(ctx, s, e, f, at, q);
    }
  }

  lemma StandsMeans(ctx: Context, s: nat, e: nat, f: nat, at: nat)
    requires Stands(ctx, s, e, f, at)
    ensures s in ctx.image && ctx.image[s].shardId == s && DistinctAddresses(Members(ctx.image[s]))
    ensures OkIds(ctx.image[s], ctx.tick) != {}
  {
    hide OkIds, FailedIds, WaitingIds;
  }

  // Whatever a scheduler answers, repair goes on: there is a request for the shard, the scheduler's own
  // if it hands one out, and a quiet round with it after which repair can go on again.
  lemma RepairGoesOn(ctx: Context, s: nat, e: nat, f: nat, at: nat, result: Requests, leader: nat, tick: nat)
    returns (q: Request, ids: seq<nat>, index: nat, ctx': Context)
    requires GoesOn(ctx, s, e, f, at) && f > 0 && ctx.tick < tick < TWO_64
    ensures HandsOut(ctx, s, result) ==> q in result.reqs
    ensures QuietRound(ctx, s, q, ids, index, leader, ctx') && ctx'.tick == tick && HostsFollow(ctx, ctx')
    ensures if at == 2 then GoesOn(ctx', s, e, f - 1, 0) else GoesOn(ctx', s, e, f, at + 1)
  {
    hide MayRepair, HandsOut, QuietRound, HostsFollow, Listed, Spares, FailedIds, OkIds, WaitingIds, Stands, Members,
      MembersAfter, Moved, LiveAfter, Heard, DistinctAddresses;
    q := NextRequest(ctx, s, e, f, at, result);
    StandsMeans(ctx, s, e, f, at);
    RepairShape(ctx, q);
    index := if q.kind == CREATE then ctx.image[s].index else ctx.image[s].index + 1;
    ids, ctx' := RoundExists(ctx, s, q, index, leader, tick);
    StepTaken(ctx, s, e, f, at, q, ids, index, leader, ctx');
    RoundMoves(ctx, s, q, ids, index, leader, ctx');
    var m := MembersAfter(ctx.image[s], q);
    MovedMembers(ctx.image[s], ctx'.image[s], LiveAfter(ctx.image[s], ctx.tick, q), index, m, ctx'.tick);
    ListedAgain(ctx, ctx', s);
    SparesStay(ctx, ctx', s, q);
  }

  // The answers of a scheduler are followed where it hands something out, and the hosts report.
  ghost predicate FollowsAnswers(answers: Context -> Requests, ctxs: seq<Context>, s: nat, qs: seq<Request>, interval: nat)
  {
    && |ctxs| == |qs| + 1
    && (forall i :: 0 <= i < |qs| && HandsOut(ctxs[i], s, answers(ctxs[i])) ==> qs[i] in answers(ctxs[i]).reqs)
    && forall i :: 0 <= i < |qs| ==> HostsFollow(ctxs[i], ctxs[i + 1]) && ctxs[i + 1].tick == ctxs[i].tick + interval
  }

  lemma QuietRunGrows(answers: Context -> Requests, ctx: Context, ctxs: seq<Context>, s: nat, q: Request, qs: seq<Request>, interval: nat)
    requires ctxs != [] && QuietRun(ctxs, s, qs) && FollowsAnswers(answers, ctxs, s, qs, interval)
    requires SomeQuietRound(ctx, s, q, ctxs[0])
    requires HostsFollow(ctx, ctxs[0]) && ctxs[0].tick == ctx.tick + interval
    requires HandsOut(ctx, s, answers(ctx)) ==> q in answers(ctx).reqs
    ensures QuietRun([ctx] + ctxs, s, [q] + qs)
    ensures FollowsAnswers(answers, [ctx] + ctxs, s, [q] + qs, interval)
  {
    hide SomeQuietRound, HandsOut, HostsFollow;
    forall i | 0 <= i < |[q] + qs|
      ensures SomeQuietRound(([ctx] + ctxs)[i], s, ([q] + qs)[i], ([ctx] + ctxs)[i + 1])
    {
    }
  }

  // Whatever a scheduler answers, repair of a shard with f failed replicas and f spare hosts can be run
  // to its end, with three requests for every failed replica.
  lemma {:induction false} RepairRuns(answers: Context -> Requests, ctx: Context, s: nat, e: nat, f: nat, at: nat, interval: nat)
    returns (ctxs: seq<Context>, qs: seq<Request>)
    requires GoesOn(ctx, s, e, f, at) && interval > 0 && ctx.tick + interval * (3 * f - at) < TWO_64
    ensures QuietRun(ctxs, s, qs) && ctxs != [] && ctxs[0] == ctx && |qs| + at == 3 * f
    ensures FollowsAnswers(answers, ctxs, s, qs, interval)
    decreases 3 * f - at
  {
    hide Stands, Listed, Spares, QuietRound, HostsFollow, HandsOut, NeedsRepair;
    StandsNeeds(ctx, s, e, f, at);
    hide GoesOn;
    if f == 0 {
      ctxs, qs := [ctx], [];
    } else {
      hide QuietRun, FollowsAnswers;
      var left := 3 * f - at;
      assert interval * left == interval + interval * (left - 1) && interval * (left - 1) >= 0;
      var q, ids, index, next := RepairGoesOn(ctx, s, e, f, at, answers(ctx), 0, ctx.tick + interval);
      var f', at' := if at == 2 then f - 1 else f, if at == 2 then 0 else at + 1;
      assert 3 * f' - at' == left - 1;
      var rest, more := RepairRuns(answers, next, s, e, f', at', interval);
      assert SomeQuietRound(ctx, s, q, next);
      hide SomeQuietRound;
      QuietRunGrows(answers, ctx, rest, s, q, more, interval);
      ctxs, qs := [ctx] + rest, [q] + more;
    }
  }

  // At the end nothing needs repair, and the shard has its size with all replicas live.
  lemma RepairCompletes(answers: Context -> Requests, ctx: Context, s: nat, e: nat, f: nat, interval: nat)
    returns (ctxs: seq<Context>, qs: seq<Request>)
    requires GoesOn(ctx, s, e, f, 0) && interval > 0 && ctx.tick + interval * (3 * f) < TWO_64
    ensures QuietRun(ctxs, s, qs) && ctxs[0] == ctx && |qs| == 3 * f && FollowsAnswers(answers, ctxs, s, qs, interval)
    ensures var last := ctxs[3 * f];
            && !NeedsRepair(last, s) && s in last.image && |last.image[s].replicas| == e
            && OkIds(last.image[s], last.tick) == last.image[s].replicas.Keys
  {
    hide Stands, Listed, Spares, QuietRun, FollowsAnswers, NeedsRepair, OkIds;
    ctxs, qs := RepairRuns(answers, ctx, s, e, f, 0, interval);
    RepairProgress(ctxs, s, qs, e, f);
    RepairConverges(ctxs, s, qs, e, f);
  }

  // ----- quorums

  // Between the ADD and the CREATE the shard is without a quorum exactly when its size is odd and
  // no live replica was to spare.
  lemma QuorumAfterAdd(ctx: Context, s: nat, e: nat, f: nat, q: Request, ids: seq<nat>, index: nat, leader: nat, ctx': Context)
    requires Stands(ctx, s, e, f, 0) && QuietRound(ctx, s, q, ids, index, leader, ctx')
    ensures s in ctx'.image
    ensures Available(ctx'.image[s], ctx'.tick) <==> !(e % 2 == 1 && e - f == e / 2 + 1)
  {
    StepTaken(ctx, s, e, f, 0, q, ids, index, leader, ctx');
    WhatIsNeeded(ctx', s, e, f, 1);
  }

  // Taking out the failed replica that a DELETE names leaves a quorum of what remains.
  lemma DeleteKeepsQuorum(ctx: Context, q: Request)
    requires MayRepair(ctx, q) && q.kind == DELETE
    ensures var c := ctx.image[q.shardId];
            Available(c.(replicas := c.replicas - {q.members[0]}), ctx.tick)
  {
    hide EntityFailed;
    var c, r := ctx.image[q.shardId], q.members[0];
    var c' := c.(replicas := c.replicas - {r});
    assert OkIds(c', ctx.tick) == OkIds(c, ctx.tick);
    assert c'.replicas.Keys == c.replicas.Keys - {r};
  }

  // When the replicas restored for an unavailable shard are back, it is available.
  lemma RestoreRegainsQuorum(ctx: Context, q: Request, c': ShardRecord, now: nat)
    requires MayRestore(ctx, q) && RestoreNeeded(ctx.image[q.shardId], ctx.tick)
    requires var c := ctx.image[q.shardId];
             c'.replicas.Keys == c.replicas.Keys && OkIds(c', now) >= OkIds(c, ctx.tick) + RestorableIds(ctx, c)
    ensures Available(c', now)
  {
    hide EntityFailed;
    var c := ctx.image[q.shardId];
    RestorableAreFailed(ctx, c);
    Partition(c, ctx.tick);
    hide OkIds, RestorableIds, FailedIds;
    var both := OkIds(c, ctx.tick) + RestorableIds(ctx, c);
    assert |both| == |OkIds(c, ctx.tick)| + |RestorableIds(ctx, c)|;
    SubsetSmaller(both, OkIds(c', now));
    assert |c'.replicas| == |c'.replicas.Keys|;
  }
}
