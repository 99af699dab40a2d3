// Several leaders at once. The lease does not rule them out: of two leaders one is stale, for another
// manager's vote was accepted since it last read the record as its own; and next to a leader that
// takes no further step the other managers can always bring up a second one.
module Leaders {
  import opened KVStore
  import opened Election
  import opened Lease

  ghost predicate Leads(w: World, a: nat)
  {
    w.World? && a in w.peers && w.peers[a].m.state == Leader
  }

  // Vote v was accepted after leader a last read the record as its own, and is not a's.
  ghost predicate SupersededAt(w: World, a: nat, v: nat)
    requires Leads(w, a)
  {
    w.peers[a].sawSelf <= v < |w.accepted| && w.accepted[v].instanceId != a
  }

  ghost predicate Stale(w: World, a: nat)
  {
    Leads(w, a) && exists v: nat :: SupersededAt(w, a, v)
  }

  // Of two leaders at least one is stale.
  lemma OneOfTwoIsStale(worlds: seq<World>, steps: seq<Step>, i: nat, a: nat, b: nat)
    requires IsRun(worlds, steps) && i < |worlds| && a != b && Leads(worlds[i], a) && Leads(worlds[i], b)
    ensures Stale(worlds[i], a) || Stale(worlds[i], b)
  {
    var w := worlds[i];
    LeaderReadItself(worlds, steps, i, a);
    LeaderReadItself(worlds, steps, i, b);
    hide IsRun;
    var x, y := w.peers[a].sawSelf, w.peers[b].sawSelf;
    if x < y {
      assert SupersededAt(w, a, y - 1);
    } else {
      assert SupersededAt(w, b, x - 1);
    }
  }

  // So while no leader is stale at most one manager leads.
  lemma OneLeaderUnlessStale(worlds: seq<World>, steps: seq<Step>, i: nat)
    requires IsRun(worlds, steps) && i < |worlds| && forall a :: !Stale(worlds[i], a)
    ensures forall a, b :: Leads(worlds[i], a) && Leads(worlds[i], b) ==> a == b
  {
    hide IsRun, Stale, Leads;
    forall a, b | Leads(worlds[i], a) && Leads(worlds[i], b)
      ensures a == b
    {
      if a != b {
        OneOfTwoIsStale(worlds, steps, i, a, b);
      }
    }
  }

  // A leader that has lost the record is stale.
  lemma DeposedIsStale(worlds: seq<World>, steps: seq<Step>, i: nat, a: nat)
    requires IsRun(worlds, steps) && i < |worlds| && Leads(worlds[i], a) && Look(worlds[i].store).instanceId != a
    ensures Stale(worlds[i], a)
  {
    var w := worlds[i];
    LeaderReadItself(worlds, steps, i, a);
    RunKeepsInv(worlds, steps, i);
    hide IsRun, PeerOk;
    LookSees(w);
    assert w.accepted[|w.accepted| - 1].instanceId != a by { LookOwner(w); }
    assert SupersededAt(w, a, |w.accepted| - 1);
  }

  // ----- how a second leader comes up

  ghost predicate Goes(w: World, step: Step, w': World)
  {
    Enabled(w, step) && Next(w, step) == w'
  }

  // Steps that lead from one world to another.
  ghost predicate Path(w: World, steps: seq<Step>, w': World)
    decreases |steps|
  {
    if steps == [] then w == w' else Enabled(w, steps[0]) && Path(Next(w, steps[0]), steps[1..], w')
  }

  // All taken by manager c.
  ghost predicate By(steps: seq<Step>, c: nat)
  {
    forall step :: step in steps ==> step.id == c
  }

  // Manager c gets from w to w' by itself, and the invariant of the lease holds there.
  ghost predicate Gets(w: World, c: nat, steps: seq<Step>, w': World)
  {
    Path(w, steps, w') && By(steps, c) && Inv(w')
  }

  lemma {:induction false} PathConcat(w: World, p: seq<Step>, mid: World, q: seq<Step>, w': World)
    requires Path(w, p, mid) && Path(mid, q, w')
    ensures Path(w, p + q, w')
    decreases |p|
  {
    hide Enabled, Next;
    if p == [] {
      assert p + q == q;
    } else {
      assert (p + q)[1..] == p[1..] + q;
      PathConcat(Next(w, p[0]), p[1..], mid, q, w');
    }
  }

  lemma GetsOn(w: World, c: nat, p: seq<Step>, mid: World, q: seq<Step>, w': World)
    requires Gets(w, c, p, mid) && Gets(mid, c, q, w')
    ensures Gets(w, c, p + q, w')
  {
    hide Inv;
    PathConcat(w, p, mid, q, w');
  }

  lemma GetsByOne(w: World, c: nat, step: Step) returns (w': World)
    requires Inv(w) && Enabled(w, step) && step.id == c
    ensures w' == Next(w, step) && Gets(w, c, [step], w')
  {
    w' := Next(w, step);
    StepKeeps(w, step);
    hide Inv, Enabled, Next;
    assert [step][1..] == [];
    assert Path(w', [], w');
  }

  // The other managers stay as they are.
  lemma OthersStay(w: World, step: Step, a: nat)
    requires Enabled(w, step) && Next(w, step).World? && a in w.peers && a != step.id
    ensures a in Next(w, step).peers && Next(w, step).peers[a] == w.peers[a]
  {
    hide KVResult, KVApplied;
  }

  lemma {:induction false} OthersStayAlong(w: World, steps: seq<Step>, w': World, c: nat, a: nat)
    requires Inv(w) && Path(w, steps, w') && By(steps, c) && a != c && w.World? && a in w.peers
    ensures w'.World? && a in w'.peers && w'.peers[a] == w.peers[a]
    decreases |steps|
  {
    hide Inv, Enabled, Next;
    if steps != [] {
      var step := steps[0];
      assert step in steps;
      StepKeeps(w, step);
      NoCrash(Next(w, step));
      OthersStay(w, step, a);
      OthersStayAlong(Next(w, step), steps[1..], w', c, a);
    }
  }

  // A follower that waits for an answer hears nothing.
  lemma ComesToRest(w: World, c: nat) returns (steps: seq<Step>, w': World)
    requires Inv(w) && c in w.peers && w.peers[c].m.state == Follower
    ensures Gets(w, c, steps, w') && w'.store == w.store && w'.accepted == w.accepted
    ensures c in w'.peers && w'.peers[c].m.state == Follower && w'.peers[c].phase == Idle
  {
    assert PhaseOk(w.peers[c]) by { assert PeerOk(w.accepted, c, w.peers[c]); }
    if w.peers[c].phase == Idle {
      steps, w' := [], w;
    } else {
      var step := if w.peers[c].phase == Confirming then Confirm(c, true) else Answer(c, true);
      hide Inv, Look;
      w' := GetsByOne(w, c, step);
      steps := [step];
    }
  }

  lemma OldestLost(w: World, c: nat) returns (mid: World)
    requires Inv(w) && c in w.peers && w.peers[c].queue != []
    ensures Gets(w, c, [Drop(c, 0)], mid) && mid.World? && mid.store == w.store && mid.accepted == w.accepted
    ensures c in mid.peers && mid.peers[c] == w.peers[c].(queue := w.peers[c].queue[1..])
  {
    NoCrash(w);
    hide Inv;
    mid := GetsByOne(w, c, Drop(c, 0));
    assert w.peers[c].queue[..0] + w.peers[c].queue[0 + 1..] == w.peers[c].queue[1..];
  }

  // Older votes of c get lost.
  lemma {:induction false} OlderVotesLost(w: World, c: nat) returns (steps: seq<Step>, w': World)
    requires Inv(w) && c in w.peers && w.peers[c].queue != []
    ensures Gets(w, c, steps, w') && w'.store == w.store && w'.accepted == w.accepted
    ensures c in w'.peers && w'.peers[c] == w.peers[c].(queue := [w.peers[c].queue[|w.peers[c].queue| - 1]])
    decreases |w.peers[c].queue|
  {
    hide Inv, Enabled, Next;
    NoCrash(w);
    var queue := w.peers[c].queue;
    if |queue| == 1 {
      steps, w' := [], w;
      assert queue == [queue[|queue| - 1]];
    } else {
      var mid := OldestLost(w, c);
      var more;
      more, w' := OlderVotesLost(mid, c);
      steps := [Drop(c, 0)] + more;
      GetsOn(w, c, [Drop(c, 0)], mid, more, w');
    }
  }

  // The vote of this round is accepted, if it may be.
  lemma VoteCounts(w: World, c: nat) returns (steps: seq<Step>, w': World)
    requires Inv(w) && c in w.peers && w.peers[c].queue != []
    requires var p := w.peers[c];
             var kv := p.queue[|p.queue| - 1].kv;
             kv.tick == p.tick && Look(w.store).instanceId in {c, kv.oldInstanceId} && Look(w.store).instanceId != 0
    ensures Gets(w, c, steps, w') && Look(w'.store).instanceId == c && c in w'.peers
    ensures w'.peers[c].m == w.peers[c].m && w'.peers[c].phase == w.peers[c].phase && w'.peers[c].answer == Voted(KVUpdated)
  {
    var older, mid := OlderVotesLost(w, c);
    NoCrash(mid);
    var p := mid.peers[c];
    var kv := p.queue[0].kv;
    assert VoteShape(kv) && kv.instanceId == c by {
      assert PeerOk(mid.accepted, c, p);
      assert VoteOk(c, p.queue[0]);
    }
    LookSees(mid);
    VoteAccepted(mid, kv);
    LookOwner(mid);
    hide Inv;
    w' := GetsByOne(mid, c, Apply(c));
    steps := older + [Apply(c)];
    GetsOn(w, c, older, mid, [Apply(c)], w');
  }

  // The owner of the record comes to lead.
  lemma OwnerLeads(w: World, c: nat) returns (steps: seq<Step>, w': World)
    requires Inv(w) && c in w.peers && w.peers[c].m.state == Follower && w.peers[c].phase == Idle
    requires c != 0 && Look(w.store).instanceId == c
    ensures Gets(w, c, steps, w') && Leads(w', c)
  {
    hide Inv;
    NoCrash(w);
    var begun := GetsByOne(w, c, BeginRound(c, false, true));
    NoCrash(begun);
    var p := begun.peers[c];
    assert p.phase == Claiming && p.queue[|p.queue| - 1].kv == VoteOf(p.m, c, p.tick, Claiming);
    var voting, voted := VoteCounts(begun, c);
    NoCrash(voted);
    w' := GetsByOne(voted, c, Answer(c, false));
    GetsOn(w, c, [BeginRound(c, false, true)], begun, voting, voted);
    GetsOn(w, c, [BeginRound(c, false, true)] + voting, voted, [Answer(c, false)], w');
    steps := [BeginRound(c, false, true)] + voting + [Answer(c, false)];
  }

  // How often a follower has read the record as it stands, in a row.
  function Rank(w: World, c: nat): nat
    requires w.World? && c in w.peers
  {
    var current, read := w.peers[c].m.current, Look(w.store);
    if current.Current? && current.info.instanceId == read.instanceId && current.info.tick == read.tick
    then current.info.staticRound + 1 else 0
  }

  // A follower of another owner that stands still comes to campaign.
  lemma {:induction false} WatchesOn(w: World, c: nat) returns (steps: seq<Step>, w': World)
    requires Inv(w) && c in w.peers && w.peers[c].m.state == Follower && w.peers[c].phase == Idle
    requires Look(w.store).instanceId !in {0, c}
    ensures Gets(w, c, steps, w') && w'.store == w.store && c in w'.peers && w'.peers[c].queue != []
    ensures var p := w'.peers[c];
            var kv := p.queue[|p.queue| - 1].kv;
            p.phase == Campaigning && kv.tick == p.tick && kv.oldInstanceId == Look(w.store).instanceId
    decreases if Rank(w, c) < 4 then 4 - Rank(w, c) else 0
  {
    hide Inv;
    NoCrash(w);
    var step := BeginRound(c, false, true);
    var mid := GetsByOne(w, c, step);
    NoCrash(mid);
    if Rank(w, c) < 4 {
      assert Rank(mid, c) == Rank(w, c) + 1;
      var more;
      more, w' := WatchesOn(mid, c);
      steps := [step] + more;
      GetsOn(w, c, [step], mid, more, w');
    } else {
      steps, w' := [step], mid;
    }
  }

  // A manager takes the record from another owner that stands still, and leads.
  lemma TakesOver(w: World, c: nat) returns (steps: seq<Step>, w': World)
    requires Inv(w) && c in w.peers && w.peers[c].m.state == Follower && w.peers[c].phase == Idle
    requires Look(w.store).instanceId !in {0, c}
    ensures Gets(w, c, steps, w') && Leads(w', c)
  {
    hide Inv;
    var watching, campaigning := WatchesOn(w, c);
    NoCrash(campaigning);
    var voting, voted := VoteCounts(campaigning, c);
    NoCrash(voted);
    var told := GetsByOne(voted, c, Answer(c, false));
    NoCrash(told);
    w' := GetsByOne(told, c, Confirm(c, false));
    GetsOn(w, c, watching, campaigning, voting, voted);
    GetsOn(w, c, watching + voting, voted, [Answer(c, false)], told);
    GetsOn(w, c, watching + voting + [Answer(c, false)], told, [Confirm(c, false)], w');
    steps := watching + voting + [Answer(c, false)] + [Confirm(c, false)];
  }

  // Any manager can come to lead by itself once there is a record.
  lemma CanLead(w: World, c: nat) returns (steps: seq<Step>, w': World)
    requires Inv(w) && c in w.peers && Look(w.store).instanceId != 0
    ensures Gets(w, c, steps, w') && Leads(w', c)
  {
    if w.peers[c].m.state == Leader {
      steps, w' := [], w;
    } else {
      assert c != 0 by { assert PeerOk(w.accepted, c, w.peers[c]); }
      hide Inv;
      var resting, rest := ComesToRest(w, c);
      NoCrash(rest);
      var more;
      if Look(w.store).instanceId == c {
        more, w' := OwnerLeads(rest, c);
      } else {
        more, w' := TakesOver(rest, c);
      }
      steps := resting + more;
      GetsOn(w, c, resting, rest, more, w');
    }
  }

  // A run that goes on.
  lemma Extend(ws: seq<World>, ss: seq<Step>, step: Step, w: World) returns (worlds: seq<World>, steps: seq<Step>)
    requires IsRun(ws, ss) && |ws| == |ss| + 1 && Goes(ws[|ws| - 1], step, w)
    ensures IsRun(worlds, steps) && |worlds| == |steps| + 1 && worlds[|worlds| - 1] == w
    ensures ws <= worlds && steps == ss + [step]
  {
    hide Enabled, Next;
    worlds, steps := ws + [w], ss + [step];
  }

  lemma {:induction false} ExtendAll(ws: seq<World>, ss: seq<Step>, more: seq<Step>, w: World) returns (worlds: seq<World>)
    requires IsRun(ws, ss) && |ws| == |ss| + 1 && Path(ws[|ws| - 1], more, w)
    ensures IsRun(worlds, ss + more) && |worlds| == |ss + more| + 1 && worlds[|worlds| - 1] == w && ws <= worlds
    decreases |more|
  {
    hide Enabled, Next, IsRun;
    if more == [] {
      worlds := ws;
      assert ss + more == ss;
    } else {
      var ws1, ss1 := Extend(ws, ss, more[0], Next(ws[|ws| - 1], more[0]));
      worlds := ExtendAll(ws1, ss1, more[1..], w);
      assert ss + [more[0]] + more[1..] == ss + more;
    }
  }

  lemma RunLength(worlds: seq<World>, steps: seq<Step>)
    requires IsRun(worlds, steps)
    ensures |worlds| == |steps| + 1
  {}

  // Whatever has happened: next to a leader that takes no further step any other manager can come to
  // lead by steps of its own. So nothing but the leaders' own steps keeps their number down.
  lemma SecondLeader(worlds: seq<World>, steps: seq<Step>, a: nat, c: nat) returns (later: seq<World>, more: seq<Step>)
    requires IsRun(worlds, steps) && Leads(worlds[|worlds| - 1], a) && a != c && c in worlds[|worlds| - 1].peers
    ensures IsRun(later, steps + more) && worlds <= later && |later| == |steps + more| + 1 && By(more, c)
    ensures Leads(later[|later| - 1], a) && Leads(later[|later| - 1], c)
  {
    var w := worlds[|worlds| - 1];
    RunKeepsInv(worlds, steps, |worlds| - 1);
    LeaderReadItself(worlds, steps, |worlds| - 1, a);
    RunLength(worlds, steps);
    LookSees(w);
    hide IsRun, Inv;
    var w';
    more, w' := CanLead(w, c);
    OthersStayAlong(w, more, w', c, a);
    later := ExtendAll(worlds, steps, more, w');
  }

  // In particular next to a stale leader, for the manager that superseded it is still there.
  lemma StaleMeansSecondLeader(worlds: seq<World>, steps: seq<Step>, a: nat) returns (c: nat, later: seq<World>, more: seq<Step>)
    requires IsRun(worlds, steps) && Stale(worlds[|worlds| - 1], a)
    ensures a != c && By(more, c) && IsRun(later, steps + more) && worlds <= later && |later| == |steps + more| + 1
    ensures Leads(later[|later| - 1], a) && Leads(later[|later| - 1], c)
  {
    var w := worlds[|worlds| - 1];
    RunKeepsInv(worlds, steps, |worlds| - 1);
    var v: nat :| SupersededAt(w, a, v);
    c := w.accepted[v].instanceId;
    assert w.accepted[v] in w.accepted;
    hide IsRun, Inv;
    later, more := SecondLeader(worlds, steps, a, c);
  }

  // ----- two leaders

  const FIRST: KV := KV(ELECTION_KEY, ELECTION_KEY, 1, 0, 1, false)

  const TAKES: KV := KV(ELECTION_KEY, ELECTION_KEY, 2, 1, 5, false)

  const CLAIM: KV := KV(ELECTION_KEY, ELECTION_KEY, 1, 0, 2, false)

  const ZERO: Sight := Saw(0, 0, 0)

  const ONE: Sight := Saw(1, 1, 1)

  // Manager 1: campaigning, the campaign accepted, the reading after it failed, claiming again.
  const CAMPAIGNS: Peer :=
    Peer(Manager(Follower, NoLeader), 1, Campaigning, VoteFailed, [Vote(FIRST, [ZERO])], [ZERO], 0, 0)

  const WON: Peer := Peer(Manager(Follower, NoLeader), 1, Idle, Voted(KVUpdated), [], [ZERO], 0, 0)

  // Manager 1 when the reading after its campaign succeeds.
  const PAUSED: Peer := Peer(Manager(Leader, NoLeader), 1, Idle, Voted(KVUpdated), [], [ZERO], 1, 1)

  const CLAIMS: Peer :=
    Peer(Manager(Follower, NoLeader), 2, Claiming, VoteFailed, [Vote(CLAIM, [ZERO, ONE])], [ZERO, ONE], 1, 2)

  function Ones(n: nat): seq<Sight>
  {
    seq(n, _ => ONE)
  }

  // Manager 2 after n readings of the same record; then with its vote accepted; then leading.
  function Watching(n: nat): Peer
    requires n > 0
  {
    Peer(Manager(Follower, Current(LeaderInfo(1, 1, n - 1))), n, if n == 5 then Campaigning else Idle, VoteFailed,
         if n == 5 then [Vote(TAKES, Ones(n))] else [], Ones(n), 0, 0)
  }

  const TAKEN: Peer :=
    Peer(Manager(Follower, Current(LeaderInfo(1, 1, 4))), 5, Campaigning, Voted(KVUpdated), [], Ones(5), 0, 0)

  const LEADS: Peer := Peer(Manager(Leader, NoLeader), 5, Idle, Voted(KVUpdated), [], Ones(5), 2, 5)

  function Nobody(p1: Peer, p2: Peer): World
  {
    World(map[], [], map[1 := p1, 2 := p2])
  }

  function Elected(p1: Peer, p2: Peer): World
  {
    World(map[ELECTION_KEY := FIRST], [FIRST], map[1 := p1, 2 := p2])
  }

  function Taken(p1: Peer, p2: Peer): World
  {
    World(map[ELECTION_KEY := TAKES], [FIRST, TAKES], map[1 := p1, 2 := p2])
  }

  lemma BothJoin()
    ensures Goes(START, Join(1), World(map[], [], map[1 := NEW_PEER]))
    ensures Goes(World(map[], [], map[1 := NEW_PEER]), Join(2), Nobody(NEW_PEER, NEW_PEER))
  {}

  lemma FirstCampaigns()
    ensures Goes(Nobody(NEW_PEER, NEW_PEER), BeginRound(1, false, true), Nobody(CAMPAIGNS, NEW_PEER))
  {
    var w := Nobody(NEW_PEER, NEW_PEER);
    assert [] + [ZERO] == [ZERO] && [] + [Vote(FIRST, [ZERO])] == [Vote(FIRST, [ZERO])];
    assert PeerBegins(w, NEW_PEER, 1, ReadOk(0, 0), NEW_PEER.m, Campaigning) == CAMPAIGNS;
    assert w.peers[1 := CAMPAIGNS] == map[1 := CAMPAIGNS, 2 := NEW_PEER];
  }

  lemma FirstWins()
    ensures Goes(Nobody(CAMPAIGNS, NEW_PEER), Apply(1), Elected(WON.(phase := Campaigning), NEW_PEER))
  {
    var w := Nobody(CAMPAIGNS, NEW_PEER);
    assert PeerApplies(w.store, CAMPAIGNS) == WON.(phase := Campaigning);
    assert w.peers[1 := WON.(phase := Campaigning)] == map[1 := WON.(phase := Campaigning), 2 := NEW_PEER];
    assert [] + [FIRST] == [FIRST];
    assert KVApplied(w.store, FIRST) == map[ELECTION_KEY := FIRST];
  }

  lemma FirstIsTold()
    ensures Goes(Elected(WON.(phase := Campaigning), NEW_PEER), Answer(1, false), Elected(WON.(phase := Confirming), NEW_PEER))
    ensures Goes(Elected(WON.(phase := Confirming), NEW_PEER), Confirm(1, true), Elected(WON, NEW_PEER))
    ensures Goes(Elected(WON.(phase := Confirming), NEW_PEER), Confirm(1, false), Elected(PAUSED, NEW_PEER))
  {
    assert map[1 := WON.(phase := Campaigning), 2 := NEW_PEER][1 := WON.(phase := Confirming)]
        == map[1 := WON.(phase := Confirming), 2 := NEW_PEER];
    assert map[1 := WON.(phase := Confirming), 2 := NEW_PEER][1 := WON] == map[1 := WON, 2 := NEW_PEER];
    assert map[1 := WON.(phase := Confirming), 2 := NEW_PEER][1 := PAUSED] == map[1 := PAUSED, 2 := NEW_PEER];
  }

  lemma SecondWatches(p1: Peer, n: nat)
    requires n < 5
    ensures var before := if n == 0 then NEW_PEER else Watching(n);
            Goes(Elected(p1, before), BeginRound(2, false, true), Elected(p1, Watching(n + 1)))
  {
    var before := if n == 0 then NEW_PEER else Watching(n);
    var after := Watching(n + 1);
    assert before.sights + [ONE] == Ones(n + 1) && [] + [Vote(TAKES, Ones(n + 1))] == [Vote(TAKES, Ones(n + 1))];
    var w := Elected(p1, before);
    assert PeerBegins(w, before, 2, ReadOk(1, 1), after.m, after.phase) == after;
    assert w.peers[2 := after] == map[1 := p1, 2 := after];
  }

  lemma FirstClaims()
    ensures Goes(Elected(WON, Watching(5)), BeginRound(1, false, true), Elected(CLAIMS, Watching(5)))
  {
    var w := Elected(WON, Watching(5));
    assert [ZERO] + [ONE] == [ZERO, ONE] && [] + [Vote(CLAIM, [ZERO, ONE])] == [Vote(CLAIM, [ZERO, ONE])];
    assert PeerBegins(w, WON, 1, ReadOk(1, 1), WON.m, Claiming) == CLAIMS;
    assert w.peers[1 := CLAIMS] == map[1 := CLAIMS, 2 := Watching(5)];
  }

  lemma SecondTakes(p1: Peer)
    ensures Goes(Elected(p1, Watching(5)), Apply(2), Taken(p1, TAKEN))
  {
    var w := Elected(p1, Watching(5));
    assert PeerApplies(w.store, Watching(5)) == TAKEN;
    assert w.peers[2 := TAKEN] == map[1 := p1, 2 := TAKEN];
    assert [FIRST] + [TAKES] == [FIRST, TAKES];
    assert KVApplied(w.store, TAKES) == map[ELECTION_KEY := TAKES];
  }

  lemma SecondLeads(p1: Peer)
    ensures Goes(Taken(p1, TAKEN), Answer(2, false), Taken(p1, TAKEN.(phase := Confirming)))
    ensures Goes(Taken(p1, TAKEN.(phase := Confirming)), Confirm(2, false), Taken(p1, LEADS))
  {
    var t := TAKEN.(phase := Confirming);
    assert map[1 := p1, 2 := TAKEN][2 := t] == map[1 := p1, 2 := t];
    assert map[1 := p1, 2 := t][2 := LEADS] == map[1 := p1, 2 := LEADS];
    assert PeerConfirms(Taken(p1, t), t, 2, ReadOk(2, 5)) == LEADS;
  }

  lemma FirstIsRejected()
    ensures var told := CLAIMS.(queue := [], answer := Voted(KVRejected));
            && Goes(Taken(CLAIMS, LEADS), Apply(1), Taken(told, LEADS))
            && Goes(Taken(told, LEADS), Answer(1, false), Taken(told.(m := Manager(Leader, NoLeader), phase := Idle), LEADS))
  {
    var told := CLAIMS.(queue := [], answer := Voted(KVRejected));
    var leads := told.(m := Manager(Leader, NoLeader), phase := Idle);
    var w := Taken(CLAIMS, LEADS);
    assert PeerApplies(w.store, CLAIMS) == told;
    assert w.peers[1 := told] == map[1 := told, 2 := LEADS];
    assert map[1 := told, 2 := LEADS][1 := leads] == map[1 := leads, 2 := LEADS];
  }

  // Manager 1 wins the record; the reading after that fails, or makes it a leader.
  lemma FirstElection(fails: bool) returns (ws: seq<World>, ss: seq<Step>)
    ensures IsRun(ws, ss) && |ws| == |ss| + 1
    ensures ws[|ws| - 1] == Elected(if fails then WON else PAUSED, NEW_PEER)
    ensures Answer(1, true) !in ss && Answer(2, true) !in ss
  {
    ws, ss := [START], [];
    assert IsRun(ws, ss);
    hide IsRun, Goes, Nobody, Elected;
    BothJoin();
    ws, ss := Extend(ws, ss, Join(1), World(map[], [], map[1 := NEW_PEER]));
    ws, ss := Extend(ws, ss, Join(2), Nobody(NEW_PEER, NEW_PEER));
    FirstCampaigns();
    ws, ss := Extend(ws, ss, BeginRound(1, false, true), Nobody(CAMPAIGNS, NEW_PEER));
    FirstWins();
    ws, ss := Extend(ws, ss, Apply(1), Elected(WON.(phase := Campaigning), NEW_PEER));
    FirstIsTold();
    ws, ss := Extend(ws, ss, Answer(1, false), Elected(WON.(phase := Confirming), NEW_PEER));
    ws, ss := Extend(ws, ss, Confirm(1, fails), Elected(if fails then WON else PAUSED, NEW_PEER));
  }

  // Then manager 2 watches the record stand still.
  lemma {:induction false} Watches(n: nat, fails: bool) returns (ws: seq<World>, ss: seq<Step>)
    requires n <= 5
    ensures IsRun(ws, ss) && |ws| == |ss| + 1
    ensures ws[|ws| - 1] == Elected(if fails then WON else PAUSED, if n == 0 then NEW_PEER else Watching(n))
    ensures Answer(1, true) !in ss && Answer(2, true) !in ss
  {
    hide IsRun, Goes, Elected, Watching;
    if n == 0 {
      ws, ss := FirstElection(fails);
    } else {
      var p1 := if fails then WON else PAUSED;
      ws, ss := Watches(n - 1, fails);
      SecondWatches(p1, n - 1);
      ws, ss := Extend(ws, ss, BeginRound(2, false, true), Elected(p1, Watching(n)));
    }
  }

  // Two managers lead at once: one owns the record, the other was promoted although the vote it
  // sent in that same round had been rejected.
  lemma TwoLeaders() returns (ws: seq<World>, ss: seq<Step>)
    ensures IsRun(ws, ss) && |ws| == |ss| + 1
    ensures var w := ws[|ws| - 1];
            && w.World? && w.peers.Keys == {1, 2} && Look(w.store).instanceId == 2
            && w.peers[1].m.state == Leader && w.peers[2].m.state == Leader
            && w.peers[1].phase == Idle && w.peers[1].answer == Voted(KVRejected)
  {
    ws, ss := Watches(5, true);
    hide IsRun, Goes;
    FirstClaims();
    ws, ss := Extend(ws, ss, BeginRound(1, false, true), Elected(CLAIMS, Watching(5)));
    SecondTakes(CLAIMS);
    ws, ss := Extend(ws, ss, Apply(2), Taken(CLAIMS, TAKEN));
    SecondLeads(CLAIMS);
    ws, ss := Extend(ws, ss, Answer(2, false), Taken(CLAIMS, TAKEN.(phase := Confirming)));
    ws, ss := Extend(ws, ss, Confirm(2, false), Taken(CLAIMS, LEADS));
    FirstIsRejected();
    var told := CLAIMS.(queue := [], answer := Voted(KVRejected));
    ws, ss := Extend(ws, ss, Apply(1), Taken(told, LEADS));
    ws, ss := Extend(ws, ss, Answer(1, false), Taken(told.(m := Manager(Leader, NoLeader), phase := Idle), LEADS));
  }

  // Two managers lead at once although every vote was accepted and every answer arrived: the first
  // takes no step after its election.
  lemma TwoLeadersByPause() returns (ws: seq<World>, ss: seq<Step>)
    ensures IsRun(ws, ss) && |ws| == |ss| + 1 && Answer(1, true) !in ss && Answer(2, true) !in ss
    ensures var w := ws[|ws| - 1];
            && w.World? && w.peers.Keys == {1, 2} && w.accepted == [FIRST, TAKES]
            && w.peers[1].m.state == Leader && w.peers[2].m.state == Leader
            && w.peers[1].answer == Voted(KVUpdated) && w.peers[2].answer == Voted(KVUpdated)
  {
    ws, ss := Watches(5, false);
    hide IsRun, Goes;
    SecondTakes(PAUSED);
    ws, ss := Extend(ws, ss, Apply(2), Taken(PAUSED, TAKEN));
    SecondLeads(PAUSED);
    ws, ss := Extend(ws, ss, Answer(2, false), Taken(PAUSED, TAKEN.(phase := Confirming)));
    ws, ss := Extend(ws, ss, Confirm(2, false), Taken(PAUSED, LEADS));
  }
}
