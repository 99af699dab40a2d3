// The replicated Drummer database (db.go): what each logged update does to it.
module Database {
  import opened ShardImage
  import opened HostImage
  import opened KVStore
  import opened Scheduler

  const TICK_INTERVAL_SECOND: nat := 5

  const LAUNCH_DEADLINE_TICK: nat := 24

  const LAUNCHED_KEY: string := "launched-flag"

  const BOOTSTRAPPED_KEY: string := "bootstrapped-flag"

  type Mailbox = map<string, seq<Request>>

  datatype DbState = DbState(tick: nat, launchDeadline: nat, shards: map<nat, ShardDef>, kvMap: Store,
                             image: Image, kills: seq<ReplicaToKill>, hosts: Hosts,
                             requests: Mailbox, outgoing: Mailbox)

  // One entry of the update log.
  datatype Update =
    | ShardUpdate(def: ShardDef)
    | KVUpdate(kv: KV)
    | NodeHostUpdate(nhi: NodeHostInfo)
    | RequestsUpdate(reqs: seq<Request>)
    | TickUpdate

  // A panic takes the replica down; every replica takes the same one.
  datatype DbOutcome = DbPanic | DbOk(db: DbState)

  const EMPTY_DB: DbState := DbState(0, 0, map[], map[], map[], [], map[], map[], map[])

  // ----- reports

  // getLaunchedShards: shards whose replicas have all been heard of.
  function LaunchedShards(image: Image): set<nat>
  {
    set s | s in image && (forall r :: r in image[s].replicas ==> image[s].replicas[r].tick > 0) :: image[s].shardId
  }

  // The part of the outcome that concerns images and mailboxes.
  function ReportStored(d: DbState, nhi: NodeHostInfo): DbOutcome
  {
    var a := nhi.raftAddress;
    var stamped := nhi.(lastTick := d.tick);
    match ReportApplied(d.image, stamped.shardInfo, a, d.tick)
    case ReportPanic => DbPanic
    case Reported(image, kills) =>
      var pending := a in d.requests;
      DbOk(d.(image := image, kills := d.kills + kills,
              hosts := HostsSynced(HostReported(d.hosts, stamped), image),
              requests := d.requests - {a},
              outgoing := if pending then d.outgoing[a := d.requests[a]] else d.outgoing - {a},
              launchDeadline := if d.launchDeadline > 0 && |LaunchedShards(image)| == |d.shards| then 0 else d.launchDeadline))
  }

  // ----- request batches

  predicate IsLaunch(q: Request)
  {
    q.kind == CREATE && !q.join && !q.restore
  }

  // The part of a batch that is for host a, in order.
  function PartFor(reqs: seq<Request>, a: string): seq<Request>
  {
    if reqs == [] then []
    else PartFor(reqs[..|reqs| - 1], a) + if reqs[|reqs| - 1].raftAddress == a then [reqs[|reqs| - 1]] else []
  }

  function Named(reqs: seq<Request>): set<string>
  {
    set k | 0 <= k < |reqs| :: reqs[k].raftAddress
  }

  predicate HasLaunch(reqs: seq<Request>)
  {
    exists k :: 0 <= k < |reqs| && IsLaunch(reqs[k])
  }

  predicate AllLaunch(reqs: seq<Request>)
  {
    forall k :: 0 <= k < |reqs| ==> IsLaunch(reqs[k])
  }

  // A batch is ignored when it would launch a second time.
  predicate BatchAccepted(d: DbState, reqs: seq<Request>)
  {
    !(HasLaunch(reqs) && LAUNCHED_KEY in d.kvMap)
  }

  const LAUNCHED_KV: KV := KV(LAUNCHED_KEY, "true", 0, 0, 0, true)

  function Delivered(requests: Mailbox, reqs: seq<Request>): Mailbox
  {
    requests + map a | a in Named(reqs) :: PartFor(reqs, a)
  }

  function BatchStored(d: DbState, reqs: seq<Request>): DbOutcome
  {
    if HasLaunch(reqs) && !AllLaunch(reqs) then DbPanic
    else if !BatchAccepted(d, reqs) then DbOk(d)
    else if HasLaunch(reqs) then
      DbOk(d.(requests := Delivered(d.requests, reqs), kvMap := KVApplied(d.kvMap, LAUNCHED_KV),
              launchDeadline := d.tick + LAUNCH_DEADLINE_TICK * TICK_INTERVAL_SECOND))
    else DbOk(d.(requests := Delivered(d.requests, reqs)))
  }

  // ----- the whole log

  function UpdateApplied(d: DbState, u: Update): DbOutcome
  {
    match u
    case ShardUpdate(def) =>
      if |def.members| == 0 || |def.appName| == 0 then DbPanic
      else if BOOTSTRAPPED_KEY in d.kvMap || def.shardId in d.shards then DbOk(d)
      else DbOk(d.(shards := d.shards[def.shardId := def]))
    case KVUpdate(kv) =>
      if kv.key == "" || kv.value == "" then DbPanic
      else DbOk(d.(kvMap := KVApplied(d.kvMap, kv)))
    case NodeHostUpdate(nhi) => ReportStored(d, nhi)
    case RequestsUpdate(reqs) => BatchStored(d, reqs)
    case TickUpdate =>
      var tick := d.tick + TICK_INTERVAL_SECOND;
      if d.launchDeadline > 0 && tick > d.launchDeadline then DbPanic else DbOk(d.(tick := tick))
  }

  function LogApplied(log: seq<Update>): DbOutcome
  {
    if log == [] then DbOk(EMPTY_DB)
    else
      match LogApplied(log[..|log| - 1])
      case DbPanic => DbPanic
      case DbOk(d) => UpdateApplied(d, log[|log| - 1])
  }

  // ctx is what a lookup in database state d returns.
  ghost predicate ContextOf(ctx: Context, d: DbState)
  {
    && ctx.tick == d.tick && ctx.image == d.image && ctx.hosts == d.hosts && ctx.kills == d.kills
    && (forall k :: 0 <= k < |ctx.shards| ==> ctx.shards[k].shardId in d.shards && d.shards[ctx.shards[k].shardId] == ctx.shards[k])
    && (forall k, l :: 0 <= k < l < |ctx.shards| ==> ctx.shards[k].shardId != ctx.shards[l].shardId)
    && (forall s :: s in d.shards ==> exists k :: 0 <= k < |ctx.shards| && ctx.shards[k].shardId == s)
  }

  // ----- at most one launch

  predicate AcceptsLaunch(d: DbState, u: Update)
  {
    u.RequestsUpdate? && HasLaunch(u.reqs) && BatchAccepted(d, u.reqs)
  }

  lemma {:induction false} LogPrefixOk(log: seq<Update>, k: nat)
    requires k <= |log| && LogApplied(log).DbOk?
    ensures LogApplied(log[..k]).DbOk?
    decreases |log|
  {
    if k < |log| {
      assert log[..|log| - 1][..k] == log[..k];
      LogPrefixOk(log[..|log| - 1], k);
    } else {
      assert log[..k] == log;
    }
  }

  // Records are never removed, and an accepted launch leaves its mark.
  lemma KeyStays(d: DbState, u: Update, key: string)
    requires UpdateApplied(d, u).DbOk?
    ensures key in d.kvMap ==> key in UpdateApplied(d, u).db.kvMap
    ensures AcceptsLaunch(d, u) ==> LAUNCHED_KEY in UpdateApplied(d, u).db.kvMap
  {
    hide ReportApplied, HostReported, HostsSynced, LaunchedShards, Delivered, HasLaunch, AllLaunch;
  }

  lemma {:induction false} KeysStay(log: seq<Update>, k: nat, key: string)
    requires k <= |log| && LogApplied(log).DbOk? && LogApplied(log[..k]).DbOk?
    requires key in LogApplied(log[..k]).db.kvMap
    ensures key in LogApplied(log).db.kvMap
    decreases |log|
  {
    hide UpdateApplied;
    if k < |log| {
      var before := log[..|log| - 1];
      LogPrefixOk(log, |log| - 1);
      assert before[..k] == log[..k];
      KeysStay(before, k, key);
      KeyStays(LogApplied(before).db, log[|log| - 1], key);
    } else {
      assert log[..k] == log;
    }
  }

  // Over any log, at most one launch batch is accepted.
  lemma LaunchOnce(log: seq<Update>, i: nat, j: nat)
    requires i < j < |log| && LogApplied(log).DbOk?
    requires LogApplied(log[..i]).DbOk? && AcceptsLaunch(LogApplied(log[..i]).db, log[i])
    ensures LogApplied(log[..j]).DbOk? && !AcceptsLaunch(LogApplied(log[..j]).db, log[j])
  {
    hide UpdateApplied, HasLaunch;
    LogPrefixOk(log, j);
    LogPrefixOk(log, i + 1);
    assert log[..i + 1][..i] == log[..i] && log[..j][..i + 1] == log[..i + 1];
    KeyStays(LogApplied(log[..i]).db, log[i], LAUNCHED_KEY);
    KeysStay(log[..j], i + 1, LAUNCHED_KEY);
  }

  // ----- the definitions

  // Entry i defines shard s: the database was not bootstrapped yet.
  ghost predicate Defines(log: seq<Update>, i: nat, s: nat)
  {
    && i < |log| && log[i].ShardUpdate? && log[i].def.shardId == s
    && LogApplied(log[..i]).DbOk? && BOOTSTRAPPED_KEY !in LogApplied(log[..i]).db.kvMap
  }

  ghost predicate FirstDefines(log: seq<Update>, i: nat, s: nat)
  {
    Defines(log, i, s) && forall j: nat :: j < i ==> !Defines(log, j, s)
  }

  ghost predicate DefinitionOk(log: seq<Update>, s: nat)
  {
    && LogApplied(log).DbOk?
    && var shards := LogApplied(log).db.shards;
       && (s in shards <==> exists i: nat :: FirstDefines(log, i, s))
       && forall i: nat :: FirstDefines(log, i, s) && s in shards ==> shards[s] == log[i].def
  }

  lemma DefinesPrefix(log: seq<Update>, i: nat, s: nat)
    requires log != [] && i < |log| - 1
    ensures Defines(log, i, s) <==> Defines(log[..|log| - 1], i, s)
  {
    hide LogApplied;
    assert log[..|log| - 1][..i] == log[..i];
  }

  lemma {:induction false} Least(log: seq<Update>, j: nat, s: nat) returns (first: nat)
    requires Defines(log, j, s)
    ensures first <= j && FirstDefines(log, first, s)
    decreases j
  {
    hide Defines;
    if i: nat :| i < j && Defines(log, i, s) {
      first := Least(log, i, s);
    } else {
      first := j;
    }
  }

  lemma DefinesStep(log: seq<Update>, s: nat)
    requires log != []
    ensures var n := |log| - 1;
            && (forall i: nat :: FirstDefines(log[..n], i, s) ==> i < n && log[..n][i] == log[i])
            && (forall i: nat :: i < n ==> (FirstDefines(log, i, s) <==> FirstDefines(log[..n], i, s)))
            && (forall i: nat :: FirstDefines(log, i, s) ==> i <= n)
            && (FirstDefines(log, n, s) <==> Defines(log, n, s) && forall i: nat :: !FirstDefines(log[..n], i, s))
  {
    hide LogApplied;
    var n := |log| - 1;
    forall i: nat
      ensures i < n ==> (Defines(log, i, s) <==> Defines(log[..n], i, s))
      ensures i >= n ==> !Defines(log[..n], i, s)
      ensures i > n ==> !Defines(log, i, s)
    {
      if i < n {
        DefinesPrefix(log, i, s);
      }
    }
    hide Defines;
    if (exists j: nat :: j < n && Defines(log, j, s)) {
      var j: nat :| j < n && Defines(log, j, s);
      var first := Least(log, j, s);
      assert FirstDefines(log[..n], first, s);
    }
  }

  lemma DefinitionMoves(d: DbState, u: Update, s: nat)
    requires UpdateApplied(d, u).DbOk?
    ensures var d' := UpdateApplied(d, u).db;
            if u.ShardUpdate? && u.def.shardId == s && BOOTSTRAPPED_KEY !in d.kvMap && s !in d.shards
            then s in d'.shards && d'.shards[s] == u.def && u.def.members != [] && u.def.appName != ""
            else (s in d'.shards <==> s in d.shards) && (s in d.shards ==> d'.shards[s] == d.shards[s])
  {
    hide ReportApplied, HostReported, HostsSynced, LaunchedShards, Delivered, HasLaunch, AllLaunch, KVApplied;
  }

  lemma NothingDefined(s: nat)
    ensures DefinitionOk([], s)
  {}

  // A shard is defined exactly if the log defines it before the database is bootstrapped, and as the
  // first such entry says.
  lemma {:induction false} DefinedByLog(log: seq<Update>, s: nat)
    requires LogApplied(log).DbOk?
    ensures DefinitionOk(log, s)
    ensures s in LogApplied(log).db.shards ==>
              LogApplied(log).db.shards[s].members != [] && LogApplied(log).db.shards[s].appName != ""
  {
    hide UpdateApplied, FirstDefines;
    if log == [] {
      NothingDefined(s);
    } else {
      var n := |log| - 1;
      var d := LogApplied(log[..n]).db;
      DefinedByLog(log[..n], s);
      DefinitionMoves(d, log[n], s);
      DefinesStep(log, s);
      if FirstDefines(log, n, s) {
        assert s !in d.shards;
      } else if s in d.shards {
        var i: nat :| FirstDefines(log[..n], i, s);
        assert FirstDefines(log, i, s);
      }
    }
  }

  // ----- what waits for a host

  // Entry i puts requests in front of host a.
  ghost predicate Posts(log: seq<Update>, i: nat, a: string)
  {
    && i < |log| && log[i].RequestsUpdate? && a in Named(log[i].reqs)
    && LogApplied(log[..i]).DbOk? && BatchAccepted(LogApplied(log[..i]).db, log[i].reqs)
  }

  ghost predicate ReportsFrom(log: seq<Update>, i: nat, a: string)
  {
    i < |log| && log[i].NodeHostUpdate? && log[i].nhi.raftAddress == a
  }

  // Entry i is the last batch for a, and a has not reported since.
  ghost predicate LastPost(log: seq<Update>, i: nat, a: string)
  {
    Posts(log, i, a) && forall j: nat :: i < j < |log| ==> !Posts(log, j, a) && !ReportsFrom(log, j, a)
  }

  ghost predicate LastReport(log: seq<Update>, i: nat, a: string)
  {
    ReportsFrom(log, i, a) && forall j: nat :: i < j < |log| ==> !ReportsFrom(log, j, a)
  }

  // What waits for a is its part of the last accepted batch that names it since its last report.
  ghost predicate RequestsOk(log: seq<Update>, a: string)
  {
    && LogApplied(log).DbOk?
    && var requests := LogApplied(log).db.requests;
       && (a in requests <==> exists i: nat :: LastPost(log, i, a))
       && (forall i: nat :: LastPost(log, i, a) ==> requests[a] == PartFor(log[i].reqs, a))
  }

  ghost predicate WaitingAt(log: seq<Update>, i: nat, a: string)
  {
    i <= |log| && LogApplied(log[..i]).DbOk? && a in LogApplied(log[..i]).db.requests
  }

  // What a may fetch is what was waiting for it at its last report.
  ghost predicate OutgoingOk(log: seq<Update>, a: string)
  {
    && LogApplied(log).DbOk?
    && var outgoing := LogApplied(log).db.outgoing;
       && (a in outgoing <==> exists i: nat :: LastReport(log, i, a) && WaitingAt(log, i, a))
       && (forall i: nat :: LastReport(log, i, a) && WaitingAt(log, i, a) ==> outgoing[a] == LogApplied(log[..i]).db.requests[a])
  }

  // The history facts of a log and of the log without its last entry.
  lemma PrefixFacts(log: seq<Update>, k: nat, a: string)
    requires k < |log|
    ensures forall i: nat :: i < k ==> log[..k][..i] == log[..i]
    ensures forall i: nat :: i < k ==> (Posts(log, i, a) <==> Posts(log[..k], i, a))
    ensures forall i: nat :: i < k ==> (ReportsFrom(log, i, a) <==> ReportsFrom(log[..k], i, a))
    ensures forall i: nat :: i < k ==> (WaitingAt(log, i, a) <==> WaitingAt(log[..k], i, a))
  {
    hide LogApplied, BatchAccepted, Named;
    forall i: nat | i < k
      ensures log[..k][..i] == log[..i]
      ensures Posts(log, i, a) <==> Posts(log[..k], i, a)
      ensures WaitingAt(log, i, a) <==> WaitingAt(log[..k], i, a)
    {
      assert log[..k][..i] == log[..i];
    }
  }

  lemma BatchMailbox(d: DbState, reqs: seq<Request>, a: string)
    requires BatchStored(d, reqs).DbOk?
    ensures var d' := BatchStored(d, reqs).db;
            && d'.outgoing == d.outgoing
            && if a in Named(reqs) && BatchAccepted(d, reqs) then a in d'.requests && d'.requests[a] == PartFor(reqs, a)
               else (a in d'.requests <==> a in d.requests) && (a in d'.requests ==> d'.requests[a] == d.requests[a])
  {
    hide PartFor, HasLaunch, AllLaunch, KVApplied, Named;
  }

  lemma StoredIs(d: DbState, nhi: NodeHostInfo)
    ensures var a, stamped := nhi.raftAddress, nhi.(lastTick := d.tick);
            var outcome := ReportApplied(d.image, nhi.shardInfo, a, d.tick);
            && (ReportStored(d, nhi).DbPanic? <==> outcome.ReportPanic?)
            && (outcome.Reported? ==>
                  var d' := ReportStored(d, nhi).db;
                  && d'.image == outcome.image && d'.kills == d.kills + outcome.kills
                  && d'.hosts == HostsSynced(HostReported(d.hosts, stamped), outcome.image)
                  && d'.requests == d.requests - {a}
                  && d'.outgoing == (if a in d.requests then d.outgoing[a := d.requests[a]] else d.outgoing - {a})
                  && d'.launchDeadline == (if d.launchDeadline > 0 && |LaunchedShards(outcome.image)| == |d.shards| then 0
                                           else d.launchDeadline)
                  && d'.tick == d.tick && d'.shards == d.shards && d'.kvMap == d.kvMap)
  {
    hide ReportApplied, HostReported, HostsSynced, LaunchedShards;
  }

  // One update and the mailboxes of host a.
  lemma MailboxStep(d: DbState, u: Update, a: string)
    requires UpdateApplied(d, u).DbOk?
    ensures var d' := UpdateApplied(d, u).db;
            if u.RequestsUpdate? && a in Named(u.reqs) && BatchAccepted(d, u.reqs) then
              a in d'.requests && d'.requests[a] == PartFor(u.reqs, a) && d'.outgoing == d.outgoing
            else if u.NodeHostUpdate? && u.nhi.raftAddress == a then
              && a !in d'.requests
              && (a in d'.outgoing <==> a in d.requests) && (a in d'.outgoing ==> d'.outgoing[a] == d.requests[a])
            else
              && (a in d'.requests <==> a in d.requests) && (a in d'.requests ==> d'.requests[a] == d.requests[a])
              && (a in d'.outgoing <==> a in d.outgoing) && (a in d'.outgoing ==> d'.outgoing[a] == d.outgoing[a])
  {
    hide ReportStored, BatchStored, KVApplied, PartFor, BatchAccepted, Named;
    if u.NodeHostUpdate? {
      StoredIs(d, u.nhi);
      hide ReportApplied, HostsSynced, HostReported, LaunchedShards;
    } else if u.RequestsUpdate? {
      BatchMailbox(d, u.reqs, a);
    }
  }

  lemma LastPostBound(log: seq<Update>, a: string)
    ensures forall i: nat :: LastPost(log, i, a) ==> i < |log|
    ensures forall i: nat :: LastReport(log, i, a) ==> i < |log|
  {}

  lemma LastPostStep(log: seq<Update>, a: string)
    requires log != []
    ensures var k := |log| - 1;
            && (Posts(log, k, a) ==> forall i: nat :: LastPost(log, i, a) <==> i == k)
            && (ReportsFrom(log, k, a) ==> forall i: nat :: !LastPost(log, i, a))
            && (!Posts(log, k, a) && !ReportsFrom(log, k, a) ==>
                  forall i: nat :: LastPost(log, i, a) <==> LastPost(log[..k], i, a))
  {
    hide LogApplied, BatchAccepted, Named;
    var k := |log| - 1;
    PrefixFacts(log, k, a);
    if !Posts(log, k, a) && !ReportsFrom(log, k, a) {
      forall i: nat
        ensures LastPost(log, i, a) <==> LastPost(log[..k], i, a)
      {
        if LastPost(log, i, a) {
          assert forall j: nat :: i < j < k ==> !Posts(log, j, a) && !ReportsFrom(log, j, a);
        }
      }
    }
  }

  lemma RequestsStep(log: seq<Update>, a: string)
    requires log != [] && LogApplied(log).DbOk? && RequestsOk(log[..|log| - 1], a)
    ensures RequestsOk(log, a)
  {
    hide UpdateApplied, LastPost, LastReport, BatchAccepted;
    var k := |log| - 1;
    assert LogApplied(log[..k]).DbOk? && LogApplied(log) == UpdateApplied(LogApplied(log[..k]).db, log[k]);
    MailboxStep(LogApplied(log[..k]).db, log[k], a);
    PrefixFacts(log, k, a);
    LastPostStep(log, a);
    if Posts(log, k, a) {
      assert LastPost(log, k, a);
    } else if !ReportsFrom(log, k, a) {
      assert forall i: nat :: LastPost(log, i, a) ==> i < k && log[..k][i] == log[i] by { LastPostBound(log[..k], a); }
      if a in LogApplied(log[..k]).db.requests {
        var i: nat :| LastPost(log[..k], i, a);
        assert LastPost(log, i, a);
      }
    }
  }

  lemma LastReportStep(log: seq<Update>, a: string)
    requires log != []
    ensures var k := |log| - 1;
            && (ReportsFrom(log, k, a) ==> forall i: nat :: LastReport(log, i, a) <==> i == k)
            && (!ReportsFrom(log, k, a) ==> forall i: nat :: LastReport(log, i, a) <==> LastReport(log[..k], i, a))
  {
    hide LogApplied;
    var k := |log| - 1;
    PrefixFacts(log, k, a);
    if !ReportsFrom(log, k, a) {
      forall i: nat
        ensures LastReport(log, i, a) <==> LastReport(log[..k], i, a)
      {
        if LastReport(log, i, a) {
          assert forall j: nat :: i < j < k ==> !ReportsFrom(log, j, a);
        }
      }
    }
  }

  lemma OutgoingOwn(log: seq<Update>, a: string)
    requires log != [] && LogApplied(log).DbOk? && LogApplied(log[..|log| - 1]).DbOk? && ReportsFrom(log, |log| - 1, a)
    requires var d, d' := LogApplied(log[..|log| - 1]).db, LogApplied(log).db;
             (a in d'.outgoing <==> a in d.requests) && (a in d'.outgoing ==> d'.outgoing[a] == d.requests[a])
    ensures OutgoingOk(log, a)
  {
    hide LogApplied;
    LastReportStep(log, a);
    hide LastReport;
    assert LastReport(log, |log| - 1, a);
  }

  lemma OutgoingOther(log: seq<Update>, a: string)
    requires log != [] && LogApplied(log).DbOk? && OutgoingOk(log[..|log| - 1], a) && !ReportsFrom(log, |log| - 1, a)
    requires var d, d' := LogApplied(log[..|log| - 1]).db, LogApplied(log).db;
             (a in d'.outgoing <==> a in d.outgoing) && (a in d'.outgoing ==> d'.outgoing[a] == d.outgoing[a])
    ensures OutgoingOk(log, a)
  {
    hide LogApplied, LastReport, Named, BatchAccepted, ReportsFrom;
    var k := |log| - 1;
    LastReportStep(log, a);
    LastPostBound(log[..k], a);
    forall i: nat | LastReport(log[..k], i, a)
      ensures i < k && log[..k][..i] == log[..i] && (WaitingAt(log, i, a) <==> WaitingAt(log[..k], i, a))
    {
      PrefixFacts(log, k, a);
    }
    hide WaitingAt;
    if a in LogApplied(log[..k]).db.outgoing {
      var i: nat :| LastReport(log[..k], i, a) && WaitingAt(log[..k], i, a);
      assert LastReport(log, i, a) && WaitingAt(log, i, a);
    }
  }

  lemma OutgoingStep(log: seq<Update>, a: string)
    requires log != [] && LogApplied(log).DbOk? && OutgoingOk(log[..|log| - 1], a)
    ensures OutgoingOk(log, a)
  {
    var k := |log| - 1;
    assert LogApplied(log[..k]).DbOk? && LogApplied(log) == UpdateApplied(LogApplied(log[..k]).db, log[k]);
    hide UpdateApplied, LogApplied, LastReport, BatchAccepted, Named, PartFor, OutgoingOk;
    MailboxStep(LogApplied(log[..k]).db, log[k], a);
    if ReportsFrom(log, k, a) {
      OutgoingOwn(log, a);
    } else {
      OutgoingOther(log, a);
    }
  }

  lemma {:induction false} MailboxTracksLog(log: seq<Update>, a: string)
    requires LogApplied(log).DbOk?
    ensures RequestsOk(log, a) && OutgoingOk(log, a)
  {
    if log != [] {
      var k := |log| - 1;
      LogPrefixOk(log, k);
      MailboxTracksLog(log[..k], a);
      PrefixFacts(log, k, a);
      RequestsStep(log, a);
      OutgoingStep(log, a);
    }
  }

  // Splitting a batch by host loses nothing and adds nothing.
  lemma {:induction false} PartMembers(reqs: seq<Request>, a: string)
    ensures forall q :: q in PartFor(reqs, a) <==> q in reqs && q.raftAddress == a
    ensures PartFor(reqs, a) != [] <==> a in Named(reqs)
  {
    if reqs != [] {
      var k := |reqs| - 1;
      PartMembers(reqs[..k], a);
      assert reqs == reqs[..k] + [reqs[k]];
      assert Named(reqs) == Named(reqs[..k]) + {reqs[k].raftAddress};
    }
  }

  // ----- the database object

  lemma NamedNothing()
    ensures Named([]) == {}
  {}

  lemma HasLaunchSnoc(reqs: seq<Request>, q: Request)
    ensures HasLaunch(reqs + [q]) <==> HasLaunch(reqs) || IsLaunch(q)
  {
    var more := reqs + [q];
    assert more[|reqs|] == q;
    if HasLaunch(reqs) {
      var k :| 0 <= k < |reqs| && IsLaunch(reqs[k]);
      assert more[k] == reqs[k];
    }
  }

  lemma PartSnoc(reqs: seq<Request>, k: nat)
    requires k < |reqs|
    ensures Named(reqs[..k + 1]) == Named(reqs[..k]) + {reqs[k].raftAddress}
    ensures forall a :: PartFor(reqs[..k + 1], a) == PartFor(reqs[..k], a) + if reqs[k].raftAddress == a then [reqs[k]] else []
  {
    assert reqs[..k + 1] == reqs[..k] + [reqs[k]];
    assert reqs[..k + 1][..k] == reqs[..k];
  }

  class DB {
    var tick: nat
    var launchDeadline: nat
    var shards: map<nat, ShardDef>
    var kvMap: Store
    var requests: Mailbox
    var outgoing: Mailbox
    const shardImage: MultiShard
    const nodeHostImage: MultiNodeHost

    ghost predicate Valid()
      reads shardImage
    {
      shardImage.Valid()
    }

    ghost function View(): DbState
      reads this, shardImage, shardImage.shards.Values, nodeHostImage
    {
      DbState(tick, launchDeadline, shards, kvMap, shardImage.View(), shardImage.replicasToKill, nodeHostImage.nodehosts,
              requests, outgoing)
    }

    constructor ()
      ensures Valid() && View() == EMPTY_DB
    {
      tick, launchDeadline, shards, kvMap, requests, outgoing := 0, 0, map[], map[], map[], map[];
      shardImage := new MultiShard();
      nodeHostImage := new MultiNodeHost();
    }

    // The database panics, in this call, once the launch deadline has passed.
    method ApplyTickUpdate() returns (panicked: bool)
      modifies this
      ensures panicked <==> UpdateApplied(old(View()), TickUpdate).DbPanic?
      ensures !panicked ==> View() == UpdateApplied(old(View()), TickUpdate).db
    {
      tick := tick + TICK_INTERVAL_SECOND;
      panicked := launchDeadline > 0 && tick > launchDeadline;
    }

    method ApplyKVUpdate(kv: KV) returns (code: KVCode)
      requires kv.key != "" && kv.value != ""
      modifies this
      ensures code == KVResult(old(kvMap), kv)
      ensures code.KVFinalized? <==> kv.key in old(kvMap) && old(kvMap)[kv.key].finalized
      ensures code.KVUpdated? <==> kv.key !in old(kvMap) || (!old(kvMap)[kv.key].finalized
                                   && old(kvMap)[kv.key].instanceId in {kv.instanceId, kv.oldInstanceId})
      ensures kvMap == if code.KVUpdated? then old(kvMap)[kv.key := kv] else old(kvMap)
      ensures View() == UpdateApplied(old(View()), KVUpdate(kv)).db
    {
      if kv.key !in kvMap {
        kvMap := kvMap[kv.key := kv];
        return KVUpdated;
      }
      var oldRec := kvMap[kv.key];
      if oldRec.finalized {
        return KVFinalized;
      } else if oldRec.instanceId == kv.instanceId || oldRec.instanceId == kv.oldInstanceId {
        kvMap := kvMap[kv.key := kv];
        return KVUpdated;
      }
      return KVRejected;
    }

    method TryCreateShard(def: ShardDef) returns (panicked: bool)
      modifies this
      ensures panicked <==> UpdateApplied(old(View()), ShardUpdate(def)).DbPanic?
      ensures panicked <==> def.members == [] || def.appName == ""
      ensures !panicked ==> View() == UpdateApplied(old(View()), ShardUpdate(def)).db
    {
      if |def.members| == 0 || |def.appName| == 0 {
        return true;
      }
      if BOOTSTRAPPED_KEY !in kvMap && def.shardId !in shards {
        shards := shards[def.shardId := def];
      }
      return false;
    }

    // isLaunchRequests; a batch that mixes launches with anything else is a panic.
    static method IsLaunchRequests(reqs: seq<Request>) returns (panicked: bool, launch: bool)
      ensures launch <==> HasLaunch(reqs)
      ensures panicked <==> HasLaunch(reqs) && !AllLaunch(reqs)
    {
      var count := 0;
      for k := 0 to |reqs|
        invariant 0 <= count <= k
        invariant count > 0 <==> HasLaunch(reqs[..k])
        invariant count == k <==> AllLaunch(reqs[..k])
      {
        assert reqs[..k + 1] == reqs[..k] + [reqs[k]];
        assert HasLaunch(reqs[..k + 1]) <==> HasLaunch(reqs[..k]) || IsLaunch(reqs[k]) by {
          HasLaunchSnoc(reqs[..k], reqs[k]);
        }
        if IsLaunch(reqs[k]) {
          count := count + 1;
        }
      }
      assert reqs[..|reqs|] == reqs;
      return count > 0 && count != |reqs|, count > 0;
    }

    static method SplitByHost(reqs: seq<Request>) returns (split: Mailbox)
      ensures split == map a | a in Named(reqs) :: PartFor(reqs, a)
    {
      hide PartFor, Named;
      split := map[];
      NamedNothing();
      for k := 0 to |reqs|
        invariant split.Keys == Named(reqs[..k])
        invariant forall a :: a in split ==> split[a] == PartFor(reqs[..k], a)
      {
        var a := reqs[k].raftAddress;
        PartMembers(reqs[..k], a);
        PartSnoc(reqs, k);
        split := split[a := (if a in split then split[a] else []) + [reqs[k]]];
      }
      assert reqs[..|reqs|] == reqs;
    }

    method PostAll(split: Mailbox)
      modifies this`requests
      ensures requests == old(requests) + split
    {
      var names := split.Keys;
      while names != {}
        invariant names <= split.Keys
        invariant requests == old(requests) + map a | a in split && a !in names :: split[a]
        decreases names
      {
        var a :| a in names;
        requests := requests[a := split[a]];
        names := names - {a};
      }
    }

    method ApplyRequestsUpdate(reqs: seq<Request>) returns (panicked: bool, count: nat)
      modifies this
      ensures panicked <==> BatchStored(old(View()), reqs).DbPanic?
      ensures panicked <==> HasLaunch(reqs) && !AllLaunch(reqs)
      ensures !panicked ==> View() == BatchStored(old(View()), reqs).db
      ensures !panicked ==> count == if BatchAccepted(old(View()), reqs) then |reqs| else 0
    {
      hide PartFor, Named, HasLaunch, AllLaunch, MultiShard.View;
      var launch;
      panicked, launch := IsLaunchRequests(reqs);
      if panicked {
        return true, 0;
      }
      var launched := LAUNCHED_KEY in kvMap;
      if launched && launch {
        return false, 0;
      }
      var split := SplitByHost(reqs);
      ghost var before := requests;
      PostAll(split);
      assert requests == Delivered(before, reqs);
      if launch {
        var code := ApplyKVUpdate(LAUNCHED_KV);
        assert code.KVUpdated?;
        launchDeadline := tick + LAUNCH_DEADLINE_TICK * TICK_INTERVAL_SECOND;
      }
      return false, |reqs|;
    }

    method GetLaunchedShards() returns (launched: set<nat>)
      requires Valid()
      ensures launched == LaunchedShards(shardImage.View())
    {
      launched := {};
      var cids := shardImage.shards.Keys;
      ghost var image := shardImage.View();
      while cids != {}
        invariant cids <= image.Keys
        invariant launched == set s | s in image && s !in cids
                                && (forall r :: r in image[s].replicas ==> image[s].replicas[r].tick > 0) :: image[s].shardId
        decreases cids
      {
        var cid :| cid in cids;
        var c := shardImage.shards[cid];
        cids := cids - {cid};
        if forall r :: r in c.replicas ==> c.replicas[r].tick > 0 {
          launched := launched + {c.shardId};
        }
      }
    }

    // The two images, the shards' first.
    method UpdateImages(nhi: NodeHostInfo) returns (panicked: bool)
      requires Valid()
      modifies shardImage, shardImage.shards.Values, nodeHostImage
      ensures var d, outcome := old(View()), ReportApplied(old(shardImage.View()), nhi.shardInfo, nhi.raftAddress, nhi.lastTick);
              && (panicked <==> outcome.ReportPanic?)
              && (!panicked ==>
                    Valid() && View() == d.(image := outcome.image, kills := d.kills + outcome.kills,
                                            hosts := HostsSynced(HostReported(d.hosts, nhi), outcome.image)))
    {
      hide ReportApplied, HostReported, HostsSynced, ShardsAt, MultiShard.View, MultiShard.Valid;
      panicked := shardImage.Update(nhi.shardInfo, nhi.raftAddress, nhi.lastTick);
      if panicked {
        return;
      }
      nodeHostImage.Update(nhi);
      var image := shardImage.Snapshot();
      nodeHostImage.SyncShardInfo(image);
    }

    // What was waiting for host a becomes what it may fetch, in place of what it could fetch before.
    method MoveRequests(a: string) returns (count: nat)
      requires Valid()
      modifies this`requests, this`outgoing
      ensures var d := old(View());
              Valid() && View() == d.(requests := d.requests - {a},
                                      outgoing := if a in d.requests then d.outgoing[a := d.requests[a]] else d.outgoing - {a})
      ensures count == if a in old(requests) then |old(requests)[a]| else 0
    {
      count := 0;
      outgoing := outgoing - {a};
      if a in requests {
        count := |requests[a]|;
        outgoing := outgoing[a := requests[a]];
        requests := requests - {a};
      }
    }

    method OnUpdatedShardInfo()
      requires Valid()
      modifies this`launchDeadline
      ensures var d := old(View());
              Valid() && View() == d.(launchDeadline :=
                if d.launchDeadline > 0 && |LaunchedShards(d.image)| == |d.shards| then 0 else d.launchDeadline)
    {
      if launchDeadline > 0 {
        var launchedShards := GetLaunchedShards();
        if |launchedShards| == |shards| {
          launchDeadline := 0;
        }
      }
    }

    method ApplyNodeHostInfoUpdate(nhi: NodeHostInfo) returns (panicked: bool, count: nat)
      requires Valid()
      modifies this, shardImage, shardImage.shards.Values, nodeHostImage
      ensures panicked <==> ReportStored(old(View()), nhi).DbPanic?
      ensures !panicked ==> Valid() && View() == ReportStored(old(View()), nhi).db
      ensures !panicked ==> count == if nhi.raftAddress in old(requests) then |old(requests)[nhi.raftAddress]| else 0
    {
      hide ReportApplied, HostReported, HostsSynced, LaunchedShards, ShardsAt, MultiShard.View, MultiShard.Valid, ReportStored;
      ghost var d := View();
      StoredIs(d, nhi);
      count := 0;
      assert d.tick == tick && d.requests == requests && d.image == shardImage.View();
      panicked := UpdateImages(nhi.(lastTick := tick));
      hide DB.View;
      if !panicked {
        count := MoveRequests(nhi.raftAddress);
        OnUpdatedShardInfo();
      }
    }
  }
}
