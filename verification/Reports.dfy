// Whole reports against the truth: the image stays true whatever the order of reports, and a
// report that leaves out what Drummer already knows loses nothing (client/nodehost.go).
module Reports {
  import opened ShardImage
  import opened Scheduler
  import opened Truth

  // ----- later stages of an update leave memberships alone

  ghost predicate SameMembership(image: Image, image': Image)
  {
    && image.Keys == image'.Keys
    && forall s :: s in image ==>
         && image'[s].shardId == image[s].shardId && image'[s].index == image[s].index
         && Members(image'[s]) == Members(image[s])
         && image'[s].replicas.Keys == image[s].replicas.Keys
         && forall r :: r in image[s].replicas ==>
              && image'[s].replicas[r].replicaId == image[s].replicas[r].replicaId
              && image'[s].replicas[r].shardId == image[s].replicas[r].shardId
              && image'[s].replicas[r].firstObserved == image[s].replicas[r].firstObserved
  }

  lemma TickedSame(image: Image, infos: seq<ShardInfo>, lastTick: nat)
    ensures SameMembership(image, Ticked(image, infos, lastTick))
  {
    hide Reports;
  }

  // A record whose replicas differ in nothing but leadership.
  ghost predicate SameRecord(c: ShardRecord, c': ShardRecord)
  {
    && c'.shardId == c.shardId && c'.index == c.index && c'.replicas.Keys == c.replicas.Keys
    && forall r :: r in c.replicas ==> c'.replicas[r] == c.replicas[r].(isLeader := c'.replicas[r].isLeader)
  }

  lemma RecordSame(c: ShardRecord, c': ShardRecord)
    requires SameRecord(c, c')
    ensures Members(c') == Members(c)
  {}

  lemma LeaderSame(image: Image, ci: ShardInfo)
    ensures SameMembership(image, LeaderApplied(image, ci))
  {
    var image' := LeaderApplied(image, ci);
    assert image'.Keys == image.Keys;
    assert forall s :: s in image ==> SameRecord(image[s], image'[s]);
    hide LeaderApplied, Members;
    forall s | s in image
      ensures Members(image'[s]) == Members(image[s])
    {
      RecordSame(image[s], image'[s]);
    }
  }

  lemma {:induction false} LeadersSame(image: Image, infos: seq<ShardInfo>)
    ensures SameMembership(image, LeadersApplied(image, infos))
  {
    hide LeaderApplied;
    if infos != [] {
      var before := LeadersApplied(image, infos[..|infos| - 1]);
      LeadersSame(image, infos[..|infos| - 1]);
      LeaderSame(before, infos[|infos| - 1]);
    }
  }

  lemma SameMembershipOk(truth: Histories, image: Image, image': Image)
    requires SameMembership(image, image') && ImageOk(truth, image)
    ensures ImageOk(truth, image') && ImageLe(image, image')
  {
    hide Was;
    forall s | s in image'
      ensures RecordOk(truth, s, image'[s])
    {
      assert RecordOk(truth, s, image[s]);
    }
  }

  // ----- a whole report

  ghost predicate AllTrue(truth: Histories, infos: seq<ShardInfo>)
  {
    forall ci :: ci in infos ==> InfoTrue(truth, ci)
  }

  ghost predicate AllKnown(truth: Histories, image: Image, infos: seq<ShardInfo>)
  {
    forall ci :: ci in infos ==> Known(truth, image, ci.shardId, ci.replicaId)
  }

  ghost predicate AllGone(truth: Histories, kills: seq<ShardInfo>)
  {
    forall q :: q in kills ==> Gone(truth, q.shardId, q.replicaId)
  }

  lemma {:induction false} InfosKeep(truth: Histories, image: Image, infos: seq<ShardInfo>, lastTick: nat)
    requires TruthOk(truth) && ImageOk(truth, image) && AllTrue(truth, infos)
    ensures InfosApplied(image, infos, lastTick).Updated?
    ensures var outcome := InfosApplied(image, infos, lastTick);
            && ImageOk(truth, outcome.image) && ImageLe(image, outcome.image)
            && (AllKnown(truth, image, infos) ==> AllGone(truth, outcome.toKill))
  {
    hide TruthOk, ImageOk, InfoApplied, Gone, Was, Known, InfoTrue;
    if infos != [] {
      var rest, ci := infos[..|infos| - 1], infos[|infos| - 1];
      assert ci in infos;
      InfosKeep(truth, image, rest, lastTick);
      var before := InfosApplied(image, rest, lastTick).image;
      InfoKeeps(truth, before, ci, lastTick);
      if AllKnown(truth, image, infos) {
        KnownStays(truth, truth, image, before, ci.shardId, ci.replicaId);
      }
    }
  }

  // A report made of truthful entries is taken without a panic, keeps the image true and moves it
  // forward only; when its replicas are known, none but gone ones are put on the kill list.
  lemma ReportKeeps(truth: Histories, image: Image, infos: seq<ShardInfo>, address: string, lastTick: nat)
    requires TruthOk(truth) && ImageOk(truth, image) && AllTrue(truth, infos)
    ensures ReportApplied(image, infos, address, lastTick).Reported?
    ensures var outcome := ReportApplied(image, infos, address, lastTick);
            && ImageOk(truth, outcome.image) && ImageLe(image, outcome.image)
            && (AllKnown(truth, image, infos) ==> forall k :: k in outcome.kills ==> Gone(truth, k.shardId, k.replicaId))
  {
    hide TruthOk, ImageOk, InfosApplied, Ticked, LeadersApplied, SameMembership, Gone, AllTrue, AllKnown;
    InfosKeep(truth, image, infos, lastTick);
    var synced := InfosApplied(image, infos, lastTick).image;
    var toKill := InfosApplied(image, infos, lastTick).toKill;
    TickedSame(synced, infos, lastTick);
    SameMembershipOk(truth, synced, Ticked(synced, infos, lastTick));
    LeadersSame(Ticked(synced, infos, lastTick), infos);
    SameMembershipOk(truth, Ticked(synced, infos, lastTick), LeadersApplied(Ticked(synced, infos, lastTick), infos));
    forall k | k in KillsOf(toKill, address) && AllKnown(truth, image, infos)
      ensures Gone(truth, k.shardId, k.replicaId)
    {
      var i :| 0 <= i < |toKill| && KillsOf(toKill, address)[i] == k;
      assert toKill[i] in toKill;
    }
  }

  // ----- the image is the truth at the highest index seen

  predicate Carries(ci: ShardInfo, s: nat)
  {
    ci.shardId == s && !ci.pending && !ci.incomplete
  }

  // The highest index a membership of shard s was reported with, starting from `start`.
  function HighestSeen(infos: seq<ShardInfo>, s: nat, start: nat): nat
  {
    if infos == [] then start
    else
      var before := HighestSeen(infos[..|infos| - 1], s, start);
      var ci := infos[|infos| - 1];
      if Carries(ci, s) && ci.index > before then ci.index else before
  }

  // HighestSeen is the maximum, so it does not depend on the order of the entries.
  lemma {:induction false} HighestSeenIsMax(infos: seq<ShardInfo>, s: nat, start: nat)
    ensures start <= HighestSeen(infos, s, start)
    ensures forall ci :: ci in infos && Carries(ci, s) ==> ci.index <= HighestSeen(infos, s, start)
    ensures HighestSeen(infos, s, start) == start
            || exists ci :: ci in infos && Carries(ci, s) && ci.index == HighestSeen(infos, s, start)
  {
    if infos != [] {
      var rest, last := infos[..|infos| - 1], infos[|infos| - 1];
      HighestSeenIsMax(rest, s, start);
      assert infos == rest + [last];
    }
  }

  ghost function IndexOf(image: Image, s: nat): nat
  {
    if s in image then image[s].index else 0
  }

  lemma InfoIndex(truth: Histories, image: Image, ci: ShardInfo, lastTick: nat, s: nat)
    requires TruthOk(truth) && ImageOk(truth, image) && InfoTrue(truth, ci)
    ensures InfoApplied(image, ci, lastTick).Updated?
    ensures IndexOf(InfoApplied(image, ci, lastTick).image, s)
            == if Carries(ci, s) && ci.index > IndexOf(image, s) then ci.index else IndexOf(image, s)
    ensures s in InfoApplied(image, ci, lastTick).image <==> s in image || Carries(ci, s)
  {
    InfoKeeps(truth, image, ci, lastTick);
    hide TruthOk, RecordOk, Known, Was, KillRequired, Resynced;
    if Carries(ci, s) && s in image {
      assert !SyncedShard(image[s], ci, lastTick).Panic?;
    }
  }

  lemma {:induction false} InfosIndex(truth: Histories, image: Image, infos: seq<ShardInfo>, lastTick: nat, s: nat)
    requires TruthOk(truth) && ImageOk(truth, image) && AllTrue(truth, infos)
    ensures InfosApplied(image, infos, lastTick).Updated?
    ensures IndexOf(InfosApplied(image, infos, lastTick).image, s) == HighestSeen(infos, s, IndexOf(image, s))
    ensures s in InfosApplied(image, infos, lastTick).image <==> s in image || exists ci :: ci in infos && Carries(ci, s)
  {
    hide TruthOk, ImageOk, InfoApplied, Was, IndexOf, Carries, InfoTrue;
    InfosKeep(truth, image, infos, lastTick);
    if infos != [] {
      var rest, ci := infos[..|infos| - 1], infos[|infos| - 1];
      InfosKeep(truth, image, rest, lastTick);
      InfosIndex(truth, image, rest, lastTick, s);
      assert infos == rest + [ci];
      InfoIndex(truth, InfosApplied(image, rest, lastTick).image, ci, lastTick, s);
    }
  }

  // A report as the database takes it in.
  datatype Report = Report(infos: seq<ShardInfo>, address: string, lastTick: nat)

  function ReportsApplied(reports: seq<Report>): ReportOutcome
  {
    if reports == [] then Reported(map[], [])
    else
      var r := reports[|reports| - 1];
      match ReportsApplied(reports[..|reports| - 1])
      case ReportPanic => ReportPanic
      case Reported(image, kills) =>
        match ReportApplied(image, r.infos, r.address, r.lastTick)
        case ReportPanic => ReportPanic
        case Reported(image', more) => Reported(image', kills + more)
  }

  function EntriesOf(reports: seq<Report>): seq<ShardInfo>
  {
    if reports == [] then [] else EntriesOf(reports[..|reports| - 1]) + reports[|reports| - 1].infos
  }

  lemma {:induction false} HighestSeenConcat(a: seq<ShardInfo>, b: seq<ShardInfo>, s: nat, start: nat)
    ensures HighestSeen(a + b, s, start) == HighestSeen(b, s, HighestSeen(a, s, start))
  {
    if b == [] {
      assert a + b == a;
    } else {
      assert (a + b)[..|a + b| - 1] == a + b[..|b| - 1];
      HighestSeenConcat(a, b[..|b| - 1], s, start);
    }
  }

  lemma ReportIndex(truth: Histories, image: Image, infos: seq<ShardInfo>, address: string, lastTick: nat, s: nat)
    requires TruthOk(truth) && ImageOk(truth, image) && AllTrue(truth, infos)
    ensures ReportApplied(image, infos, address, lastTick).Reported?
    ensures IndexOf(ReportApplied(image, infos, address, lastTick).image, s) == HighestSeen(infos, s, IndexOf(image, s))
    ensures s in ReportApplied(image, infos, address, lastTick).image <==>
              s in image || exists ci :: ci in infos && Carries(ci, s)
  {
    hide TruthOk, ImageOk, InfosApplied, Ticked, LeadersApplied, AllTrue, Members, HighestSeen, Carries;
    InfosIndex(truth, image, infos, lastTick, s);
    var synced := InfosApplied(image, infos, lastTick).image;
    TickedSame(synced, infos, lastTick);
    LeadersSame(Ticked(synced, infos, lastTick), infos);
  }

  // After any sequence of truthful reports, none of which panics, a shard is imaged exactly when
  // some entry carried a membership of it, and then the image holds the truth at the highest
  // index so carried.
  lemma {:induction false} ImageIsTruth(truth: Histories, reports: seq<Report>, s: nat)
    requires TruthOk(truth) && AllTrue(truth, EntriesOf(reports))
    ensures ReportsApplied(reports).Reported? && ImageOk(truth, ReportsApplied(reports).image)
    ensures s in ReportsApplied(reports).image <==> exists ci :: ci in EntriesOf(reports) && Carries(ci, s)
    ensures s in ReportsApplied(reports).image ==>
              var c := ReportsApplied(reports).image[s];
              c.index == HighestSeen(EntriesOf(reports), s, 0) && Was(truth, s, c.index, Members(c))
  {
    hide TruthOk, InfosApplied, Ticked, LeadersApplied, SameMembership, Was, Carries, HighestSeen, InfoTrue;
    if reports != [] {
      var rest, r := reports[..|reports| - 1], reports[|reports| - 1];
      ImageIsTruth(truth, rest, s);
      var image := ReportsApplied(rest).image;
      ReportKeeps(truth, image, r.infos, r.address, r.lastTick);
      ReportIndex(truth, image, r.infos, r.address, r.lastTick, s);
      HighestSeenConcat(EntriesOf(rest), r.infos, s, 0);
      if s in ReportsApplied(reports).image {
        assert RecordOk(truth, s, ReportsApplied(reports).image[s]);
      }
      if s !in image {
        HighestSeenIsMax(EntriesOf(rest), s, 0);
      }
    }
  }

  // The order of the reports, and how their entries are split between them, does not matter.
  lemma ReportOrderIsIrrelevant(truth: Histories, a: seq<Report>, b: seq<Report>, s: nat)
    requires TruthOk(truth) && AllTrue(truth, EntriesOf(a))
    requires forall ci :: ci in EntriesOf(a) <==> ci in EntriesOf(b)
    ensures ReportsApplied(a).Reported? && ReportsApplied(b).Reported?
    ensures s in ReportsApplied(a).image <==> s in ReportsApplied(b).image
    ensures s in ReportsApplied(a).image ==>
              var c, d := ReportsApplied(a).image[s], ReportsApplied(b).image[s];
              c.index == d.index && Members(c) == Members(d)
  {
    hide TruthOk, ImageOk, InfoTrue, Members, ReportsApplied, Was;
    ImageIsTruth(truth, a, s);
    ImageIsTruth(truth, b, s);
    HighestSeenIsMax(EntriesOf(a), s, 0);
    HighestSeenIsMax(EntriesOf(b), s, 0);
    if s in ReportsApplied(a).image {
      var c, d := ReportsApplied(a).image[s], ReportsApplied(b).image[s];
      IndexUnique(truth, s, c.index, Members(c), Members(d));
    }
  }

  // ----- a replica that stays keeps what is known of it

  // A member before and after was a member all along.
  lemma StayedMember(truth: Histories, s: nat, r: nat, i0: nat, m0: map<nat, string>, i1: nat, m1: map<nat, string>,
                     i2: nat, m2: map<nat, string>)
    requires TruthOk(truth) && Was(truth, s, i0, m0) && Was(truth, s, i1, m1) && Was(truth, s, i2, m2)
    requires i0 <= i1 <= i2 && r in m0 && r in m2
    ensures r in m1
  {
    hide SameAddress, ConfigOk;
    var h := truth[s];
    assert HistoryOk(h);
    var a: nat :| Is(h, a, i0, m0);
    var b: nat :| Is(h, b, i1, m1);
    var c: nat :| Is(h, c, i2, m2);
  }

  lemma FirstObservedOne(image: Image, ci: ShardInfo, lastTick: nat, s: nat, r: nat)
    requires InfoApplied(image, ci, lastTick).Updated? && s in image && r in image[s].replicas
    requires r in InfoApplied(image, ci, lastTick).image[s].replicas
    ensures InfoApplied(image, ci, lastTick).image[s].replicas[r].firstObserved == image[s].replicas[r].firstObserved
  {}

  lemma {:induction false} FirstObservedInfos(truth: Histories, image: Image, infos: seq<ShardInfo>, lastTick: nat, s: nat, r: nat)
    requires TruthOk(truth) && ImageOk(truth, image) && AllTrue(truth, infos)
    requires InfosApplied(image, infos, lastTick).Updated?
    requires var image' := InfosApplied(image, infos, lastTick).image;
             s in image && s in image' && r in image[s].replicas && r in image'[s].replicas
    ensures InfosApplied(image, infos, lastTick).image[s].replicas[r].firstObserved == image[s].replicas[r].firstObserved
  {
    hide TruthOk, Was, InfoTrue;
    if infos != [] {
      var rest, ci := infos[..|infos| - 1], infos[|infos| - 1];
      assert ci in infos;
      InfosKeep(truth, image, rest, lastTick);
      var before := InfosApplied(image, rest, lastTick).image;
      var after := InfosApplied(image, infos, lastTick).image;
      InfoKeeps(truth, before, ci, lastTick);
      assert RecordOk(truth, s, image[s]) && RecordOk(truth, s, before[s]) && RecordOk(truth, s, after[s]);
      StayedMember(truth, s, r, image[s].index, Members(image[s]), before[s].index, Members(before[s]),
                   after[s].index, Members(after[s]));
      FirstObservedInfos(truth, image, rest, lastTick, s, r);
      FirstObservedOne(before, ci, lastTick, s, r);
    }
  }

  lemma KeysOfMembers(c: ShardRecord)
    ensures Members(c).Keys == c.replicas.Keys
  {}

  lemma TruePrefix(truth: Histories, reports: seq<Report>, q: Report)
    requires AllTrue(truth, EntriesOf(reports + [q]))
    ensures AllTrue(truth, EntriesOf(reports)) && AllTrue(truth, q.infos)
  {
    assert (reports + [q])[..|reports|] == reports;
    assert EntriesOf(reports + [q]) == EntriesOf(reports) + q.infos;
  }

  // Further reports never move the image back.
  lemma {:induction false} ImageGrows(truth: Histories, a: seq<Report>, b: seq<Report>, s: nat)
    requires TruthOk(truth) && AllTrue(truth, EntriesOf(a + b))
    ensures ReportsApplied(a).Reported? && ReportsApplied(a + b).Reported?
    ensures AllTrue(truth, EntriesOf(a)) && ImageLe(ReportsApplied(a).image, ReportsApplied(a + b).image)
    decreases |b|
  {
    if b == [] {
      assert a + b == a;
      ImageIsTruth(truth, a, s);
    } else {
      var rest, q := b[..|b| - 1], b[|b| - 1];
      assert (a + b)[..|a + b| - 1] == a + rest && (a + b)[|a + b| - 1] == q && a + b == a + rest + [q];
      hide TruthOk, ImageOk, AllTrue, ReportApplied;
      TruePrefix(truth, a + rest, q);
      ImageGrows(truth, a, rest, s);
      ImageIsTruth(truth, a + rest, s);
      ReportKeeps(truth, ReportsApplied(a + rest).image, q.infos, q.address, q.lastTick);
    }
  }

  // A whole report keeps it.
  lemma FirstObservedReport(truth: Histories, image: Image, infos: seq<ShardInfo>, address: string, lastTick: nat, s: nat, r: nat)
    requires TruthOk(truth) && ImageOk(truth, image) && AllTrue(truth, infos)
    requires s in image && r in image[s].replicas
    ensures ReportApplied(image, infos, address, lastTick).Reported?
    ensures var image' := ReportApplied(image, infos, address, lastTick).image;
            s in image' && (r in image'[s].replicas ==>
                              image'[s].replicas[r].firstObserved == image[s].replicas[r].firstObserved)
  {
    hide TruthOk, ImageOk, InfosApplied, Ticked, LeadersApplied, AllTrue;
    InfosKeep(truth, image, infos, lastTick);
    var synced := InfosApplied(image, infos, lastTick).image;
    TickedSame(synced, infos, lastTick);
    LeadersSame(Ticked(synced, infos, lastTick), infos);
    if r in synced[s].replicas {
      FirstObservedInfos(truth, image, infos, lastTick, s, r);
    }
  }

  lemma StillImaged(truth: Histories, early: Image, mid: Image, late: Image, s: nat, r: nat)
    requires TruthOk(truth) && ImageOk(truth, early) && ImageOk(truth, mid) && ImageOk(truth, late)
    requires ImageLe(early, mid) && ImageLe(mid, late)
    requires s in early && s in late && r in early[s].replicas && r in late[s].replicas
    ensures s in mid && r in mid[s].replicas
  {
    hide TruthOk, Was, KeyedRecord;
    assert RecordOk(truth, s, early[s]) && RecordOk(truth, s, mid[s]) && RecordOk(truth, s, late[s]);
    KeysOfMembers(early[s]);
    KeysOfMembers(mid[s]);
    KeysOfMembers(late[s]);
    StayedMember(truth, s, r, early[s].index, Members(early[s]), mid[s].index, Members(mid[s]),
                 late[s].index, Members(late[s]));
  }

  // One report more.
  lemma OneReportMore(reports: seq<Report>, q: Report)
    requires ReportsApplied(reports).Reported?
    requires ReportApplied(ReportsApplied(reports).image, q.infos, q.address, q.lastTick).Reported?
    ensures ReportsApplied(reports + [q]).Reported?
    ensures ReportsApplied(reports + [q]).image == ReportApplied(ReportsApplied(reports).image, q.infos, q.address, q.lastTick).image
  {
    assert (reports + [q])[..|reports|] == reports;
  }

  // Over any sequence of truthful reports a replica that is imaged before and after was imaged all
  // along, and keeps the tick at which it was first observed.
  lemma {:induction false} FirstObservedKept(truth: Histories, a: seq<Report>, b: seq<Report>, s: nat, r: nat)
    requires TruthOk(truth) && AllTrue(truth, EntriesOf(a + b))
    requires ReportsApplied(a).Reported? && ReportsApplied(a + b).Reported?
    requires s in ReportsApplied(a).image && r in ReportsApplied(a).image[s].replicas
    requires s in ReportsApplied(a + b).image && r in ReportsApplied(a + b).image[s].replicas
    ensures ReportsApplied(a + b).image[s].replicas[r].firstObserved == ReportsApplied(a).image[s].replicas[r].firstObserved
    decreases |b|
  {
    if b == [] {
      assert a + b == a;
    } else {
      hide TruthOk, ImageOk, ImageLe, AllTrue, ReportApplied, ReportsApplied, EntriesOf;
      var rest, q := b[..|b| - 1], b[|b| - 1];
      assert a + b == (a + rest) + [q];
      TruePrefix(truth, a + rest, q);
      ImageGrows(truth, a, rest, s);
      ImageIsTruth(truth, a, s);
      ImageIsTruth(truth, a + rest, s);
      var mid := ReportsApplied(a + rest).image;
      ReportKeeps(truth, mid, q.infos, q.address, q.lastTick);
      OneReportMore(a + rest, q);
      StillImaged(truth, ReportsApplied(a).image, mid, ReportsApplied(a + b).image, s, r);
      FirstObservedKept(truth, a, rest, s, r);
      FirstObservedReport(truth, mid, q.infos, q.address, q.lastTick, s, r);
    }
  }

  // ----- suppressed reports

  // SendNodeHostInfo: the membership is left out when Drummer, asked earlier, knew a configuration
  // at least as high.
  function Suppressed(known: Image, ci: ShardInfo): ShardInfo
  {
    if ci.shardId in known && known[ci.shardId].index >= ci.index && !ci.pending
    then ci.(incomplete := true, replicas := map[])
    else ci
  }

  function SuppressedAll(known: Image, infos: seq<ShardInfo>): seq<ShardInfo>
  {
    seq(|infos|, i requires 0 <= i < |infos| => Suppressed(known, infos[i]))
  }

  ghost predicate NoneIncomplete(infos: seq<ShardInfo>)
  {
    forall ci :: ci in infos ==> !ci.incomplete
  }

  function IdsOf(infos: seq<ShardInfo>): seq<(nat, nat)>
  {
    seq(|infos|, i requires 0 <= i < |infos| => (infos[i].shardId, infos[i].replicaId))
  }

  lemma RecordNonempty(truth: Histories, s: nat, c: ShardRecord)
    requires TruthOk(truth) && RecordOk(truth, s, c)
    ensures |c.replicas| > 0 && c.index > 0
  {
    hide SameAddress, NeverBack, Increasing, KeyedRecord;
    var k: nat :| Is(truth[s], k, c.index, Members(c));
    assert HistoryOk(truth[s]) && ConfigOk(truth[s], k);
    assert Members(c).Keys == c.replicas.Keys;
  }

  lemma SameIndexNoChange(truth: Histories, s: nat, c: ShardRecord, ci: ShardInfo, lastTick: nat)
    requires TruthOk(truth) && RecordOk(truth, s, c) && Was(truth, s, ci.index, ci.replicas) && c.index == ci.index
    ensures SyncedShard(c, ci, lastTick) == Synced(c)
  {
    NoSyncPanic(truth, s, c, ci, lastTick);
    IndexUnique(truth, s, c.index, Members(c), ci.replicas);
    hide TruthOk, Was, KeyedRecord;
    assert Members(c).Keys == c.replicas.Keys;
    assert Resynced(c, ci, lastTick) == c.replicas;
  }

  lemma SuppressedOne(truth: Histories, known: Image, image: Image, ci: ShardInfo, lastTick: nat)
    requires TruthOk(truth) && ImageOk(truth, image) && ImageLe(known, image)
    requires InfoTrue(truth, ci) && !ci.incomplete
    ensures InfoApplied(image, ci, lastTick).Updated? && InfoApplied(image, Suppressed(known, ci), lastTick).Updated?
    ensures var full, less := InfoApplied(image, ci, lastTick), InfoApplied(image, Suppressed(known, ci), lastTick);
            less.image == full.image && IdsOf(less.toKill) == IdsOf(full.toKill)
  {
    InfoKeeps(truth, image, ci, lastTick);
    var s := ci.shardId;
    if Suppressed(known, ci) != ci {
      RecordNonempty(truth, s, image[s]);
      if image[s].index == ci.index {
        SameIndexNoChange(truth, s, image[s], ci, lastTick);
        assert image[s := image[s]] == image;
      }
    }
  }

  lemma IdsOfConcat(a: seq<ShardInfo>, b: seq<ShardInfo>)
    ensures IdsOf(a + b) == IdsOf(a) + IdsOf(b)
  {}

  lemma {:induction false} SuppressedInfos(truth: Histories, known: Image, image: Image, infos: seq<ShardInfo>, lastTick: nat)
    requires TruthOk(truth) && ImageOk(truth, image) && ImageLe(known, image)
    requires AllTrue(truth, infos) && NoneIncomplete(infos)
    ensures var full, less := InfosApplied(image, infos, lastTick), InfosApplied(image, SuppressedAll(known, infos), lastTick);
            full.Updated? && less.Updated? && less.image == full.image && IdsOf(less.toKill) == IdsOf(full.toKill)
  {
    hide TruthOk, ImageOk, InfoApplied, InfoTrue, Suppressed;
    InfosKeep(truth, image, infos, lastTick);
    if infos != [] {
      var rest, ci := infos[..|infos| - 1], infos[|infos| - 1];
      assert ci in infos;
      SuppressedInfos(truth, known, image, rest, lastTick);
      InfosKeep(truth, image, rest, lastTick);
      var sup := SuppressedAll(known, infos);
      assert sup[..|sup| - 1] == SuppressedAll(known, rest) && sup[|sup| - 1] == Suppressed(known, ci);
      var before := InfosApplied(image, rest, lastTick);
      var lessBefore := InfosApplied(image, SuppressedAll(known, rest), lastTick);
      SuppressedOne(truth, known, before.image, ci, lastTick);
      IdsOfConcat(before.toKill, InfoApplied(before.image, ci, lastTick).toKill);
      IdsOfConcat(lessBefore.toKill, InfoApplied(before.image, Suppressed(known, ci), lastTick).toKill);
    }
  }

  lemma SameIdsSameKills(a: seq<ShardInfo>, b: seq<ShardInfo>, address: string)
    requires IdsOf(a) == IdsOf(b)
    ensures KillsOf(a, address) == KillsOf(b, address)
  {
    forall i | 0 <= i < |a|
      ensures KillsOf(a, address)[i] == KillsOf(b, address)[i]
    {
      assert IdsOf(a)[i] == IdsOf(b)[i];
    }
  }

  lemma SuppressedTicks(known: Image, image: Image, infos: seq<ShardInfo>, lastTick: nat)
    ensures Ticked(image, SuppressedAll(known, infos), lastTick) == Ticked(image, infos, lastTick)
  {
    var sup := SuppressedAll(known, infos);
    forall s, r
      ensures Reports(sup, s, r) == Reports(infos, s, r)
    {
      assert forall k :: 0 <= k < |infos| ==> sup[k].shardId == infos[k].shardId && sup[k].replicaId == infos[k].replicaId;
    }
    forall s | s in image
      ensures Ticked(image, sup, lastTick)[s] == Ticked(image, infos, lastTick)[s]
    {
      assert Ticked(image, sup, lastTick)[s].replicas == Ticked(image, infos, lastTick)[s].replicas;
    }
  }

  lemma {:induction false} SuppressedLeaders(known: Image, image: Image, infos: seq<ShardInfo>)
    ensures LeadersApplied(image, SuppressedAll(known, infos)) == LeadersApplied(image, infos)
  {
    if infos != [] {
      var rest := infos[..|infos| - 1];
      var sup := SuppressedAll(known, infos);
      SuppressedLeaders(known, image, rest);
      assert sup[..|sup| - 1] == SuppressedAll(known, rest);
    }
  }

  // A suppressed report does to the image, the leaders, the ticks and the kill list exactly what
  // the full one would, whatever happened to the image between the question and the report.
  lemma SuppressedReportLosesNothing(truth: Histories, known: Image, image: Image, infos: seq<ShardInfo>,
                                     address: string, lastTick: nat)
    requires TruthOk(truth) && ImageOk(truth, image) && ImageLe(known, image)
    requires AllTrue(truth, infos) && NoneIncomplete(infos)
    ensures ReportApplied(image, infos, address, lastTick).Reported?
    ensures ReportApplied(image, SuppressedAll(known, infos), address, lastTick)
            == ReportApplied(image, infos, address, lastTick)
  {
    hide TruthOk, ImageOk, InfosApplied, Ticked, LeadersApplied, SuppressedAll;
    SuppressedInfos(truth, known, image, infos, lastTick);
    var full := InfosApplied(image, infos, lastTick);
    var less := InfosApplied(image, SuppressedAll(known, infos), lastTick);
    SameIdsSameKills(less.toKill, full.toKill, address);
    SuppressedTicks(known, full.image, infos, lastTick);
    SuppressedLeaders(known, Ticked(full.image, infos, lastTick), infos);
  }

  // ----- the kill list

  // The record is newer than the entry and does not have its replica.
  ghost predicate OldAndGone(image: Image, ci: ShardInfo)
  {
    ci.shardId in image && ci.index < image[ci.shardId].index && ci.replicaId !in image[ci.shardId].replicas
  }

  // With or without a membership, pending or not, a truthful entry of such a replica, and no other, asks
  // for its kill.
  lemma KillExact(truth: Histories, image: Image, ci: ShardInfo, lastTick: nat)
    requires TruthOk(truth) && ImageOk(truth, image) && InfoTrue(truth, ci)
    ensures InfoApplied(image, ci, lastTick).Updated?
    ensures InfoApplied(image, ci, lastTick).toKill == if OldAndGone(image, ci) then [ci] else []
  {
    InfoKeeps(truth, image, ci, lastTick);
    if ci.shardId in image {
      assert RecordOk(truth, ci.shardId, image[ci.shardId]);
      RecordNonempty(truth, ci.shardId, image[ci.shardId]);
    }
    hide TruthOk, ImageOk, InfoTrue, RecordOk, DistinctAddresses, Resynced;
  }

  ghost predicate KilledAt(image: Image, infos: seq<ShardInfo>, lastTick: nat, k: nat, s: nat, r: nat)
  {
    && k < |infos| && infos[k].shardId == s && infos[k].replicaId == r && InfosApplied(image, infos[..k], lastTick).Updated?
    && OldAndGone(InfosApplied(image, infos[..k], lastTick).image, infos[k])
  }

  lemma KilledStep(image: Image, infos: seq<ShardInfo>, lastTick: nat, s: nat, r: nat)
    requires infos != [] && InfosApplied(image, infos[..|infos| - 1], lastTick).Updated?
    ensures var n, ci := |infos| - 1, infos[|infos| - 1];
            && (KilledAt(image, infos, lastTick, n, s, r) <==>
                  ci.shardId == s && ci.replicaId == r && OldAndGone(InfosApplied(image, infos[..n], lastTick).image, ci))
            && (forall k: nat :: KilledAt(image, infos, lastTick, k, s, r) && k != n ==> KilledAt(image, infos[..n], lastTick, k, s, r))
            && (forall k: nat :: KilledAt(image, infos[..n], lastTick, k, s, r) ==> KilledAt(image, infos, lastTick, k, s, r))
  {
    hide InfosApplied, OldAndGone;
    var n := |infos| - 1;
    forall k: nat | k < n
      ensures infos[..n][..k] == infos[..k] && infos[..n][k] == infos[k]
    {
    }
  }

  lemma {:induction false} AskedFor(truth: Histories, image: Image, infos: seq<ShardInfo>, lastTick: nat, s: nat, r: nat)
    requires TruthOk(truth) && ImageOk(truth, image) && AllTrue(truth, infos)
    ensures InfosApplied(image, infos, lastTick).Updated?
    ensures (exists q :: q in InfosApplied(image, infos, lastTick).toKill && q.shardId == s && q.replicaId == r)
            <==> exists k: nat :: KilledAt(image, infos, lastTick, k, s, r)
  {
    hide TruthOk, ImageOk, InfoTrue, InfoApplied, OldAndGone;
    InfosKeep(truth, image, infos, lastTick);
    if infos != [] {
      var n := |infos| - 1;
      var rest, ci := infos[..n], infos[n];
      assert ci in infos;
      AskedFor(truth, image, rest, lastTick, s, r);
      InfosKeep(truth, image, rest, lastTick);
      KillExact(truth, InfosApplied(image, rest, lastTick).image, ci, lastTick);
      KilledStep(image, infos, lastTick, s, r);
      hide KilledAt;
      var before, all := InfosApplied(image, rest, lastTick).toKill, InfosApplied(image, infos, lastTick).toKill;
      assert all == before + InfoApplied(InfosApplied(image, rest, lastTick).image, ci, lastTick).toKill;
      if q :| q in before && q.shardId == s && q.replicaId == r {
        assert q in all;
      }
      if KilledAt(image, infos, lastTick, n, s, r) {
        assert ci in all;
      }
    }
  }

  // A truthful report puts a replica on the kill list, under the reporting host, exactly if one of its
  // entries is of a replica that is old and gone by the image that the entries before it have left.
  lemma KillsExact(truth: Histories, image: Image, infos: seq<ShardInfo>, address: string, lastTick: nat, q: ReplicaToKill)
    requires TruthOk(truth) && ImageOk(truth, image) && AllTrue(truth, infos)
    ensures ReportApplied(image, infos, address, lastTick).Reported?
    ensures q in ReportApplied(image, infos, address, lastTick).kills <==>
              q.address == address && exists k: nat :: KilledAt(image, infos, lastTick, k, q.shardId, q.replicaId)
  {
    hide TruthOk, ImageOk, InfosApplied, Ticked, LeadersApplied, AllTrue, KilledAt;
    AskedFor(truth, image, infos, lastTick, q.shardId, q.replicaId);
    var toKill := InfosApplied(image, infos, lastTick).toKill;
    assert forall i :: 0 <= i < |toKill| ==> KillsOf(toKill, address)[i].shardId == toKill[i].shardId;
    if i :| 0 <= i < |toKill| && toKill[i].shardId == q.shardId && toKill[i].replicaId == q.replicaId {
      assert q.address == address ==> KillsOf(toKill, address)[i] == q;
    }
    if i :| 0 <= i < |toKill| && KillsOf(toKill, address)[i] == q {
      assert toKill[i] in toKill;
    }
  }

  // ----- when replicas are heard of

  // r is imaged now and was not before.
  ghost predicate NewIn(before: Image, image: Image, s: nat, r: nat)
  {
    s in image && r in image[s].replicas && !(s in before && r in before[s].replicas)
  }

  lemma NewByInfo(image: Image, ci: ShardInfo, lastTick: nat, s: nat, r: nat)
    requires InfoApplied(image, ci, lastTick).Updated?
    requires s in InfoApplied(image, ci, lastTick).image && r in InfoApplied(image, ci, lastTick).image[s].replicas
    ensures var n := InfoApplied(image, ci, lastTick).image[s].replicas[r];
            if s in image && r in image[s].replicas then n == image[s].replicas[r] else n.tick == 0 && n.firstObserved == lastTick
  {
    hide KillRequired, DistinctAddresses;
  }

  lemma {:induction false} NewByInfos(image: Image, infos: seq<ShardInfo>, lastTick: nat, s: nat, r: nat)
    requires InfosApplied(image, infos, lastTick).Updated? && NewIn(image, InfosApplied(image, infos, lastTick).image, s, r)
    ensures var n := InfosApplied(image, infos, lastTick).image[s].replicas[r]; n.tick == 0 && n.firstObserved == lastTick
  {
    hide InfoApplied;
    if infos != [] {
      var rest := infos[..|infos| - 1];
      var before := InfosApplied(image, rest, lastTick).image;
      if NewIn(image, before, s, r) {
        NewByInfos(image, rest, lastTick, s, r);
      }
      NewByInfo(before, infos[|infos| - 1], lastTick, s, r);
    }
  }

  lemma {:induction false} LeadersRecords(image: Image, infos: seq<ShardInfo>, s: nat)
    ensures LeadersApplied(image, infos).Keys == image.Keys
    ensures s in image ==> SameRecord(image[s], LeadersApplied(image, infos)[s])
  {
    if infos != [] {
      LeadersRecords(image, infos[..|infos| - 1], s);
    }
  }

  // A replica that a report brings into the image is first observed then, and heard of then exactly if
  // the report has an entry of it.
  lemma NewlyImaged(image: Image, infos: seq<ShardInfo>, address: string, lastTick: nat, s: nat, r: nat)
    requires ReportApplied(image, infos, address, lastTick).Reported?
    requires NewIn(image, ReportApplied(image, infos, address, lastTick).image, s, r)
    ensures var n := ReportApplied(image, infos, address, lastTick).image[s].replicas[r];
            && n.firstObserved == lastTick
            && n.tick == if exists k :: 0 <= k < |infos| && infos[k].shardId == s && infos[k].replicaId == r then lastTick else 0
  {
    var synced := InfosApplied(image, infos, lastTick).image;
    LeadersRecords(Ticked(synced, infos, lastTick), infos, s);
    hide InfosApplied, LeadersApplied;
    NewByInfos(image, infos, lastTick, s, r);
  }
}
