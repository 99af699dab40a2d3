// The leader lease: managers that read and vote on one compare-and-set record. Readings and votes
// are atomic; votes of one manager take effect in the order it sent them, at any later time or
// never, and an answer may be lost.
module Lease {
  import opened KVStore
  import opened Election

  // What a round's first reading saw: the record, and how many votes had been accepted by then.
  datatype Sight = Unseen | Saw(version: nat, instanceId: nat, tick: nat)

  // A vote under way, with all its sender had seen when it sent it.
  datatype Vote = Vote(kv: KV, sights: seq<Sight>)

  // answer: the outcome of this round's vote, once it took effect.
  // sawSelf: the version at which the manager last read itself as owner, and in which round.
  datatype Peer = Peer(m: Manager, tick: nat, phase: Phase, answer: VoteResult, queue: seq<Vote>, sights: seq<Sight>,
                       sawSelf: nat, selfRound: nat)

  const STABLE_ROUNDS: nat := DEAD_LEADER_MIN_ROUND + 1

  datatype World = Crashed | World(store: Store, accepted: seq<KV>, peers: map<nat, Peer>)

  datatype Step =
    | Join(id: nat)
    | BeginRound(id: nat, readFails: bool, session: bool)
    | Apply(id: nat)
    | Drop(id: nat, k: nat)
    | Answer(id: nat, lost: bool)
    | Confirm(id: nat, readFails: bool)

  function Look(store: Store): Reading
  {
    if ELECTION_KEY in store then ReadOk(store[ELECTION_KEY].instanceId, store[ELECTION_KEY].tick) else ReadOk(0, 0)
  }

  function SightOf(w: World, read: Reading): Sight
    requires w.World?
  {
    if read.ReadFailed? then Unseen else Saw(|w.accepted|, read.instanceId, read.tick)
  }

  // A manager that begins a round.
  function PeerBegins(w: World, p: Peer, id: nat, read: Reading, m: Manager, phase: Phase): Peer
    requires w.World?
  {
    var tick := p.tick + 1;
    var sights := p.sights + [SightOf(w, read)];
    var own := read.ReadOk? && read.instanceId == id;
    p.(m := m, tick := tick, phase := phase, answer := VoteFailed, sights := sights,
       queue := if phase == Idle then p.queue else p.queue + [Vote(VoteOf(m, id, tick, phase), sights)],
       sawSelf := if own then |w.accepted| else p.sawSelf,
       selfRound := if own then tick else p.selfRound)
  }

  // A manager whose oldest vote takes effect.
  function PeerApplies(store: Store, p: Peer): Peer
    requires p.queue != []
  {
    var kv := p.queue[0].kv;
    p.(queue := p.queue[1..], answer := if kv.tick == p.tick then Voted(KVResult(store, kv)) else p.answer)
  }

  function PeerConfirms(w: World, p: Peer, id: nat, read: Reading): Peer
    requires w.World?
  {
    var own := read.ReadOk? && read.instanceId == id;
    p.(m := Confirmed(p.m, id, read), phase := Idle,
       sawSelf := if own then |w.accepted| else p.sawSelf, selfRound := if own then p.tick else p.selfRound)
  }

  const NEW_PEER: Peer := Peer(Manager(Follower, NoLeader), 0, Idle, VoteFailed, [], [], 0, 0)

  predicate Enabled(w: World, step: Step)
  {
    w.World? &&
    match step
    case Join(id) => id != 0 && id !in w.peers
    case BeginRound(id, _, _) => id in w.peers && w.peers[id].phase == Idle
    case Apply(id) => id in w.peers && w.peers[id].queue != []
    case Drop(id, k) => id in w.peers && k < |w.peers[id].queue|
    case Answer(id, lost) =>
      id in w.peers && w.peers[id].phase in {Renewing, Claiming, Campaigning} && (lost || w.peers[id].answer.Voted?)
    case Confirm(id, _) => id in w.peers && w.peers[id].phase == Confirming
  }

  function Next(w: World, step: Step): World
    requires Enabled(w, step)
  {
    match step
    case Join(id) => w.(peers := w.peers[id := NEW_PEER])
    case BeginRound(id, fails, session) =>
      var p, read := w.peers[id], if fails then ReadFailed else Look(w.store);
      (match Begin(p.m, id, read, session)
       case BeginPanic => Crashed
       case Begun(m, phase) => w.(peers := w.peers[id := PeerBegins(w, p, id, read, m, phase)]))
    case Apply(id) =>
      var p := w.peers[id];
      var kv := p.queue[0].kv;
      w.(store := KVApplied(w.store, kv),
         accepted := if KVResult(w.store, kv).KVUpdated? then w.accepted + [kv] else w.accepted,
         peers := w.peers[id := PeerApplies(w.store, p)])
    case Drop(id, k) =>
      var p := w.peers[id];
      w.(peers := w.peers[id := p.(queue := p.queue[..k] + p.queue[k + 1..])])
    case Answer(id, lost) =>
      var p := w.peers[id];
      (match Answered(p.m, p.phase, if lost then VoteFailed else p.answer)
       case BeginPanic => Crashed
       case Begun(m, phase) => w.(peers := w.peers[id := p.(m := m, phase := phase)]))
    case Confirm(id, fails) =>
      w.(peers := w.peers[id := PeerConfirms(w, w.peers[id], id, if fails then ReadFailed else Look(w.store))])
  }

  const START: World := World(map[], [], map[])

  // ----- the invariant

  // The record is the last accepted vote.
  ghost predicate RecordIs(store: Store, accepted: seq<KV>)
  {
    && (ELECTION_KEY in store <==> accepted != [])
    && (accepted != [] ==> store[ELECTION_KEY] == accepted[|accepted| - 1])
  }

  ghost predicate VoteShape(kv: KV)
  {
    kv.key == ELECTION_KEY && !kv.finalized && kv.instanceId != 0
  }

  // A manager's accepted votes carry rising ticks.
  ghost predicate TicksRise(accepted: seq<KV>)
  {
    forall i, j :: 0 <= i < j < |accepted| && accepted[i].instanceId == accepted[j].instanceId
                   ==> accepted[i].tick < accepted[j].tick
  }

  ghost predicate SightOk(accepted: seq<KV>, s: Sight)
  {
    s.Saw? ==>
      && s.version <= |accepted|
      && if s.version == 0 then s.instanceId == 0
         else s.instanceId == accepted[s.version - 1].instanceId && s.tick == accepted[s.version - 1].tick
  }

  // A sight never goes back in time.
  ghost predicate SightsRise(sights: seq<Sight>)
  {
    forall k, l :: 0 <= k < l < |sights| && sights[k].Saw? && sights[l].Saw? ==> sights[k].version <= sights[l].version
  }

  ghost predicate SightsOk(accepted: seq<KV>, sights: seq<Sight>)
  {
    SightsRise(sights) && forall s :: s in sights ==> SightOk(accepted, s)
  }

  // The last n sights are all `s`, and so is an earlier one.
  ghost predicate Stable(sights: seq<Sight>, s: Sight, n: nat)
  {
    && n < |sights| && s in sights[..|sights| - n]
    && forall k :: |sights| - n <= k < |sights| ==> sights[k] == s
  }

  // The owner `id` was seen n more times in a row with the same tick.
  ghost predicate Watched(sights: seq<Sight>, id: nat, tick: nat, n: nat)
  {
    exists s: Sight :: s.Saw? && s.instanceId == id && s.tick == tick && Stable(sights, s, n)
  }

  // A vote against an owner was sent after the owner had stood still for four more readings.
  ghost predicate VoteOk(id: nat, v: Vote)
  {
    && VoteShape(v.kv) && v.kv.instanceId == id && |v.sights| == v.kv.tick && v.kv.oldInstanceId != id
    && (v.kv.oldInstanceId != 0 ==> exists tick: nat :: Watched(v.sights, v.kv.oldInstanceId, tick, STABLE_ROUNDS))
  }

  ghost predicate QueueOk(accepted: seq<KV>, id: nat, p: Peer)
  {
    var queue := p.queue;
    && (forall v :: v in queue ==> VoteOk(id, v) && v.kv.tick <= p.tick && v.sights <= p.sights)
    && (forall i, j :: 0 <= i < j < |queue| ==> queue[i].kv.tick < queue[j].kv.tick)
    && forall v, kv :: v in queue && kv in accepted && kv.instanceId == id ==> kv.tick < v.kv.tick
  }

  ghost predicate CurrentOk(accepted: seq<KV>, id: nat, p: Peer)
  {
    p.m.current.Current? ==>
      var c := p.m.current.info;
      c.instanceId != id && c.instanceId != 0 && accepted != []
      && (p.phase != Claiming ==> Watched(p.sights, c.instanceId, c.tick, c.staticRound))
      && (p.phase == Campaigning ==> c.staticRound > DEAD_LEADER_MIN_ROUND)
  }

  ghost predicate PhaseOk(p: Peer)
  {
    && (p.m.state == Leader ==> p.m.current.NoLeader?)
    && (p.phase == Renewing ==> p.m.state == Leader)
    && (p.phase in {Claiming, Campaigning, Confirming} ==> p.m.state == Follower)
  }

  // A leader, and one about to claim, read itself as owner in its latest round.
  ghost predicate LeaderOk(accepted: seq<KV>, id: nat, p: Peer)
  {
    p.m.state == Leader || p.phase == Claiming ==>
      p.selfRound == p.tick && 0 < p.sawSelf <= |accepted| && accepted[p.sawSelf - 1].instanceId == id
  }

  ghost predicate PeerOk(accepted: seq<KV>, id: nat, p: Peer)
  {
    && id != 0 && |p.sights| == p.tick && QueueOk(accepted, id, p) && SightsOk(accepted, p.sights)
    && CurrentOk(accepted, id, p) && PhaseOk(p) && LeaderOk(accepted, id, p)
    && forall kv :: kv in accepted && kv.instanceId == id ==> kv.tick <= p.tick
  }

  ghost predicate Inv(w: World)
  {
    && w.World? && RecordIs(w.store, w.accepted) && TicksRise(w.accepted)
    && (forall kv :: kv in w.accepted ==> VoteShape(kv) && kv.instanceId in w.peers)
    && forall id :: id in w.peers ==> PeerOk(w.accepted, id, w.peers[id])
  }

  // ----- readings

  // The record's owner and tick tell the version.
  lemma SightUnique(accepted: seq<KV>, s: Sight, t: Sight)
    requires TicksRise(accepted) && SightOk(accepted, s) && SightOk(accepted, t)
    requires s.Saw? && t.Saw? && s.instanceId == t.instanceId && s.tick == t.tick && s.instanceId != 0
    ensures s == t
  {}

  // A later reading of the same owner never shows an older tick.
  lemma TickNeverBack(accepted: seq<KV>, s: Sight, t: Sight)
    requires TicksRise(accepted) && SightOk(accepted, s) && SightOk(accepted, t)
    requires s.Saw? && t.Saw? && s.instanceId == t.instanceId && s.instanceId != 0 && s.version <= t.version
    ensures s.tick <= t.tick
  {}

  lemma SightStays(accepted: seq<KV>, kv: KV, sights: seq<Sight>)
    requires SightsOk(accepted, sights)
    ensures SightsOk(accepted + [kv], sights)
  {
    forall s | s in sights
      ensures SightOk(accepted + [kv], s)
    {
      assert SightOk(accepted, s);
    }
  }

  lemma LookSees(w: World)
    requires w.World? && RecordIs(w.store, w.accepted) && forall kv :: kv in w.accepted ==> VoteShape(kv)
    ensures SightOk(w.accepted, SightOf(w, Look(w.store)))
    ensures Look(w.store).ReadOk? && (Look(w.store).instanceId == 0 <==> w.accepted == [])
  {
    if w.accepted != [] {
      assert w.accepted[|w.accepted| - 1] in w.accepted;
    }
  }

  lemma SightsGrow(accepted: seq<KV>, sights: seq<Sight>, s: Sight)
    requires SightsOk(accepted, sights) && SightOk(accepted, s) && (s.Saw? ==> s.version == |accepted|)
    ensures SightsOk(accepted, sights + [s])
  {
    forall k | 0 <= k < |sights| && sights[k].Saw?
      ensures sights[k].version <= |accepted|
    {
      assert SightOk(accepted, sights[k]);
    }
  }

  // A stretch of readings ends: the earlier reading is still there.
  lemma WatchedReset(sights: seq<Sight>, x: Sight, id: nat, tick: nat, n: nat)
    requires Watched(sights, id, tick, n)
    ensures Watched(sights, id, tick, 0) && Watched(sights + [x], id, tick, 0)
  {
    var s: Sight :| s.Saw? && s.instanceId == id && s.tick == tick && Stable(sights, s, n);
    assert s in sights && sights[..|sights| - 0] == sights;
    assert Stable(sights, s, 0);
    var i :| 0 <= i < |sights| && sights[i] == s;
    assert (sights + [x])[..|sights| + 1 - 0][i] == s;
    assert Stable(sights + [x], s, 0);
  }

  // The stretch goes on.
  lemma WatchedMore(accepted: seq<KV>, sights: seq<Sight>, x: Sight, n: nat)
    requires TicksRise(accepted) && SightsOk(accepted, sights) && SightOk(accepted, x)
    requires x.Saw? && x.instanceId != 0 && Watched(sights, x.instanceId, x.tick, n)
    ensures Watched(sights + [x], x.instanceId, x.tick, n + 1)
  {
    var s: Sight :| s.Saw? && s.instanceId == x.instanceId && s.tick == x.tick && Stable(sights, s, n);
    SightUnique(accepted, s, x);
    var more := sights + [x];
    assert more[..|more| - (n + 1)] == sights[..|sights| - n];
    assert Stable(more, x, n + 1);
  }

  lemma WatchedFirst(sights: seq<Sight>, x: Sight)
    requires x.Saw?
    ensures Watched(sights + [x], x.instanceId, x.tick, 0)
  {
    var more := sights + [x];
    assert more[..|more| - 0] == more;
    assert x in more[..|more| - 0];
    assert Stable(more, x, 0);
  }

  // The panic "unknown state" is never reached.
  lemma NoUnknownState(accepted: seq<KV>, id: nat, p: Peer, x: Sight)
    requires TicksRise(accepted) && PeerOk(accepted, id, p) && p.phase == Idle
    requires SightOk(accepted, x) && x.Saw? && x.version == |accepted|
    ensures !UnknownState(p.m.current, x.instanceId, x.tick)
  {
    if p.m.current.Current? && p.m.current.info.instanceId == x.instanceId {
      var c := p.m.current.info;
      assert Watched(p.sights, c.instanceId, c.tick, c.staticRound);
      var s: Sight :| s.Saw? && s.instanceId == c.instanceId && s.tick == c.tick && Stable(p.sights, s, c.staticRound);
      assert SightOk(accepted, s);
      TickNeverBack(accepted, s, x);
    }
  }

  // ----- steps

  lemma BeginCurrent(w: World, id: nat, p: Peer, read: Reading, session: bool)
    requires w.World? && TicksRise(w.accepted) && PeerOk(w.accepted, id, p) && p.phase == Idle
    requires SightOk(w.accepted, SightOf(w, read)) && (read.ReadOk? ==> (read.instanceId == 0 <==> w.accepted == []))
    ensures Begin(p.m, id, read, session).Begun?
    ensures var b := Begin(p.m, id, read, session);
            CurrentOk(w.accepted, id, PeerBegins(w, p, id, read, b.m, b.phase))
  {
    hide TicksRise, SightOk, QueueOk, SightsRise, Watched, SightsOk;
    var x := SightOf(w, read);
    if read.ReadOk? {
      NoUnknownState(w.accepted, id, p, x);
      WatchedFirst(p.sights, x);
    }
    if p.m.current.Current? {
      var c := p.m.current.info;
      WatchedReset(p.sights, x, c.instanceId, c.tick, c.staticRound);
      if read.ReadOk? && c.instanceId == read.instanceId && c.tick == read.tick {
        WatchedMore(w.accepted, p.sights, x, c.staticRound);
      }
    }
  }

  lemma QueueGrows(accepted: seq<KV>, id: nat, p: Peer, p': Peer, v: Vote)
    requires QueueOk(accepted, id, p) && p'.queue == p.queue + [v] && p'.tick == p.tick + 1 && p.sights <= p'.sights
    requires VoteOk(id, v) && v.kv.tick == p'.tick && v.sights == p'.sights
    requires forall kv :: kv in accepted && kv.instanceId == id ==> kv.tick <= p.tick
    ensures QueueOk(accepted, id, p')
  {
    hide VoteOk;
  }

  lemma StableLong(sights: seq<Sight>, id: nat, tick: nat, n: nat)
    requires Watched(sights, id, tick, n) && n >= STABLE_ROUNDS
    ensures Watched(sights, id, tick, STABLE_ROUNDS)
  {
    var s: Sight :| s.Saw? && s.instanceId == id && s.tick == tick && Stable(sights, s, n);
    var i :| 0 <= i < |sights| - n && sights[i] == s;
    assert sights[..|sights| - STABLE_ROUNDS][i] == s;
    assert Stable(sights, s, STABLE_ROUNDS);
  }

  // A vote the round sends.
  lemma BeginQueue(w: World, id: nat, p: Peer, read: Reading, session: bool)
    requires w.World? && PeerOk(w.accepted, id, p) && p.phase == Idle && Begin(p.m, id, read, session).Begun?
    requires var b := Begin(p.m, id, read, session);
             CurrentOk(w.accepted, id, PeerBegins(w, p, id, read, b.m, b.phase))
    ensures var b := Begin(p.m, id, read, session);
            QueueOk(w.accepted, id, PeerBegins(w, p, id, read, b.m, b.phase))
  {
    hide SightsOk, Watched;
    var b := Begin(p.m, id, read, session);
    var p' := PeerBegins(w, p, id, read, b.m, b.phase);
    if b.phase != Idle {
      var v := p'.queue[|p.queue|];
      assert VoteOk(id, v) by {
        if v.kv.oldInstanceId != 0 {
          StableLong(p'.sights, v.kv.oldInstanceId, b.m.current.info.tick, b.m.current.info.staticRound);
        }
      }
      assert p'.queue == p.queue + [v] && v.sights == p'.sights;
      QueueGrows(w.accepted, id, p, p', v);
    }
  }

  lemma UnseenOk(accepted: seq<KV>)
    ensures SightOk(accepted, Unseen)
  {}

  lemma LookOwner(w: World)
    requires w.World? && RecordIs(w.store, w.accepted) && Look(w.store).instanceId != 0
    ensures |w.accepted| > 0 && w.accepted[|w.accepted| - 1].instanceId == Look(w.store).instanceId
  {}

  lemma BeginKeeps(w: World, id: nat, fails: bool, session: bool)
    requires Inv(w) && Enabled(w, BeginRound(id, fails, session))
    ensures Inv(Next(w, BeginRound(id, fails, session)))
  {
    hide TicksRise, SightsOk, SightOk, QueueOk, Watched, VoteShape, CurrentOk;
    var p := w.peers[id];
    var read := if fails then ReadFailed else Look(w.store);
    assert PeerOk(w.accepted, id, p);
    LookSees(w);
    UnseenOk(w.accepted);
    var x := SightOf(w, read);
    BeginCurrent(w, id, p, read, session);
    BeginQueue(w, id, p, read, session);
    SightsGrow(w.accepted, p.sights, x);
    var b := Begin(p.m, id, read, session);
    var p' := PeerBegins(w, p, id, read, b.m, b.phase);
    assert LeaderOk(w.accepted, id, p') by {
      if read.ReadOk? && read.instanceId == id {
        LookOwner(w);
      }
    }
    assert PeerOk(w.accepted, id, p');
  }

  // One manager moves on by itself.
  lemma PeerMoves(w: World, id: nat, p': Peer)
    requires Inv(w) && id in w.peers && PeerOk(w.accepted, id, p')
    ensures Inv(w.(peers := w.peers[id := p']))
  {
    hide TicksRise, PeerOk, RecordIs;
  }

  // It keeps what it has sent and seen.
  lemma QuietPeer(w: World, id: nat, p': Peer)
    requires Inv(w) && id in w.peers
    requires var p := w.peers[id]; p' == p.(m := p'.m, phase := p'.phase, sawSelf := p'.sawSelf, selfRound := p'.selfRound)
    requires CurrentOk(w.accepted, id, p') && PhaseOk(p') && LeaderOk(w.accepted, id, p')
    ensures Inv(w.(peers := w.peers[id := p']))
  {
    hide TicksRise, SightsOk, VoteOk, CurrentOk, PhaseOk, LeaderOk, RecordIs;
    assert PeerOk(w.accepted, id, w.peers[id]);
    PeerMoves(w, id, p');
  }

  lemma AnswerKeeps(w: World, id: nat, lost: bool)
    requires Inv(w) && Enabled(w, Answer(id, lost))
    ensures Inv(Next(w, Answer(id, lost)))
  {
    hide TicksRise, SightsOk, Watched, QueueOk, RecordIs;
    var p := w.peers[id];
    assert PeerOk(w.accepted, id, p);
    if p.m.current.Current? && p.phase != Claiming {
      WatchedReset(p.sights, Unseen, p.m.current.info.instanceId, p.m.current.info.tick, p.m.current.info.staticRound);
    }
    var b := Answered(p.m, p.phase, if lost then VoteFailed else p.answer);
    hide PeerOk, VoteShape;
    QuietPeer(w, id, p.(m := b.m, phase := b.phase));
  }

  lemma ConfirmKeeps(w: World, id: nat, fails: bool)
    requires Inv(w) && Enabled(w, Confirm(id, fails))
    ensures Inv(Next(w, Confirm(id, fails)))
  {
    hide TicksRise, SightsOk, Watched, QueueOk, VoteShape;
    var p := w.peers[id];
    assert PeerOk(w.accepted, id, p);
    if p.m.current.Current? {
      WatchedReset(p.sights, Unseen, p.m.current.info.instanceId, p.m.current.info.tick, p.m.current.info.staticRound);
    }
    if Look(w.store).instanceId == id {
      LookOwner(w);
    }
    hide RecordIs;
    QuietPeer(w, id, PeerConfirms(w, p, id, if fails then ReadFailed else Look(w.store)));
  }

  lemma DropOne(accepted: seq<KV>, id: nat, p: Peer, k: nat)
    requires QueueOk(accepted, id, p) && k < |p.queue|
    ensures QueueOk(accepted, id, p.(queue := p.queue[..k] + p.queue[k + 1..]))
  {
    hide VoteOk;
    var q := p.queue[..k] + p.queue[k + 1..];
    forall v | v in q
      ensures v in p.queue
    {
    }
    assert forall i :: 0 <= i < |q| ==> q[i] == p.queue[if i < k then i else i + 1];
  }

  lemma DropKeeps(w: World, id: nat, k: nat)
    requires Inv(w) && Enabled(w, Drop(id, k))
    ensures Inv(Next(w, Drop(id, k)))
  {
    hide TicksRise, SightsOk, QueueOk, VoteShape, Watched;
    assert PeerOk(w.accepted, id, w.peers[id]);
    DropOne(w.accepted, id, w.peers[id], k);
  }

  lemma JoinKeeps(w: World, id: nat)
    requires Inv(w) && Enabled(w, Join(id))
    ensures Inv(Next(w, Join(id)))
  {
    hide TicksRise, VoteShape, VoteOk;
  }

  // What the record's compare-and-set says of a vote.
  lemma VoteAccepted(w: World, kv: KV)
    requires w.World? && RecordIs(w.store, w.accepted) && VoteShape(kv)
    requires forall a :: a in w.accepted ==> VoteShape(a)
    ensures KVResult(w.store, kv).KVUpdated? <==>
              w.accepted == [] || w.accepted[|w.accepted| - 1].instanceId in {kv.instanceId, kv.oldInstanceId}
  {
    if w.accepted != [] {
      assert w.accepted[|w.accepted| - 1] in w.accepted;
    }
  }

  // Another manager's vote is accepted.
  lemma OtherAccepted(accepted: seq<KV>, kv: KV, id: nat, p: Peer)
    requires PeerOk(accepted, id, p) && kv.instanceId != id
    ensures PeerOk(accepted + [kv], id, p)
  {
    hide SightOk, SightsRise, Watched, VoteOk;
    SightStays(accepted, kv, p.sights);
  }

  lemma OwnAccepted(accepted: seq<KV>, id: nat, p: Peer, p': Peer)
    requires PeerOk(accepted, id, p) && p.queue != []
    requires p' == p.(queue := p.queue[1..], answer := p'.answer)
    ensures PeerOk(accepted, id, p') && PeerOk(accepted + [p.queue[0].kv], id, p')
  {
    hide SightOk, SightsRise, Watched, VoteOk;
    SightStays(accepted, p.queue[0].kv, p.sights);
  }

  // The store follows the accepted votes.
  lemma RecordMoves(w: World, kv: KV)
    requires w.World? && RecordIs(w.store, w.accepted) && VoteShape(kv)
    ensures RecordIs(KVApplied(w.store, kv), if KVResult(w.store, kv).KVUpdated? then w.accepted + [kv] else w.accepted)
  {}

  lemma OwnVote(w: World, id: nat)
    requires Inv(w) && Enabled(w, Apply(id))
    ensures var kv := w.peers[id].queue[0].kv;
            VoteShape(kv) && kv.instanceId == id && TicksRise(w.accepted + [kv])
  {
    hide Watched, SightsOk, CurrentOk;
    assert PeerOk(w.accepted, id, w.peers[id]);
    assert VoteOk(id, w.peers[id].queue[0]);
  }

  lemma ApplyKeeps(w: World, id: nat)
    requires Inv(w) && Enabled(w, Apply(id))
    ensures Inv(Next(w, Apply(id)))
  {
    hide PeerOk, Watched, VoteShape, TicksRise, KVResult, KVApplied, RecordIs;
    var p := w.peers[id];
    var kv := p.queue[0].kv;
    OwnVote(w, id);
    RecordMoves(w, kv);
    OwnAccepted(w.accepted, id, p, PeerApplies(w.store, p));
    forall other | other in w.peers && other != id
      ensures PeerOk(w.accepted, other, w.peers[other]) && PeerOk(w.accepted + [kv], other, w.peers[other])
    {
      OtherAccepted(w.accepted, kv, other, w.peers[other]);
    }
  }

  lemma StepKeeps(w: World, step: Step)
    requires Inv(w) && Enabled(w, step)
    ensures Inv(Next(w, step))
  {
    hide Inv;
    match step
    case Join(id) => JoinKeeps(w, id);
    case BeginRound(id, fails, session) => BeginKeeps(w, id, fails, session);
    case Apply(id) => ApplyKeeps(w, id);
    case Drop(id, k) => DropKeeps(w, id, k);
    case Answer(id, lost) => AnswerKeeps(w, id, lost);
    case Confirm(id, fails) => ConfirmKeeps(w, id, fails);
  }

  // ----- every run

  ghost predicate IsRun(worlds: seq<World>, steps: seq<Step>)
  {
    && |worlds| == |steps| + 1 && worlds[0] == START
    && forall i :: 0 <= i < |steps| ==> Enabled(worlds[i], steps[i]) && worlds[i + 1] == Next(worlds[i], steps[i])
  }

  lemma StartOk()
    ensures Inv(START)
  {}

  lemma {:induction false} RunKeepsInv(worlds: seq<World>, steps: seq<Step>, i: nat)
    requires IsRun(worlds, steps) && i < |worlds|
    ensures Inv(worlds[i])
  {
    hide Inv, Enabled, Next;
    if i == 0 {
      assert Inv(START) by { StartOk(); }
    } else {
      RunKeepsInv(worlds, steps, i - 1);
      StepKeeps(worlds[i - 1], steps[i - 1]);
    }
  }

  lemma AcceptedStep(w: World, step: Step)
    requires Enabled(w, step) && Next(w, step).World?
    ensures w.accepted <= Next(w, step).accepted
  {}

  lemma NoCrash(w: World)
    requires Inv(w)
    ensures w.World?
  {}

  lemma {:induction false} AcceptedGrows(worlds: seq<World>, steps: seq<Step>, i: nat, j: nat)
    requires IsRun(worlds, steps) && i <= j < |worlds|
    ensures worlds[i].World? && worlds[j].World? && worlds[i].accepted <= worlds[j].accepted
    decreases j
  {
    hide Inv, Enabled, Next;
    RunKeepsInv(worlds, steps, i);
    RunKeepsInv(worlds, steps, j);
    NoCrash(worlds[i]);
    NoCrash(worlds[j]);
    if i < j {
      AcceptedGrows(worlds, steps, i, j - 1);
      AcceptedStep(worlds[j - 1], steps[j - 1]);
    }
  }

  // Step i of the run is a reading by manager `id`, in the round after `round`, that saw s.
  ghost predicate ReadsAt(worlds: seq<World>, steps: seq<Step>, i: nat, id: nat, round: nat, s: Sight)
  {
    && i < |steps| && i < |worlds| && steps[i].BeginRound? && steps[i].id == id && worlds[i].World?
    && id in worlds[i].peers && |worlds[i].peers[id].sights| == round
    && s == SightOf(worlds[i], if steps[i].readFails then ReadFailed else Look(worlds[i].store))
  }

  lemma SightsStep(w: World, step: Step, id: nat, k: nat)
    requires Enabled(w, step) && Next(w, step).World? && id in Next(w, step).peers
    requires k < |Next(w, step).peers[id].sights|
    ensures id in w.peers
    ensures if k < |w.peers[id].sights| then Next(w, step).peers[id].sights[k] == w.peers[id].sights[k]
            else step.BeginRound? && step.id == id && |w.peers[id].sights| == k
                 && Next(w, step).peers[id].sights[k]
                    == SightOf(w, if step.readFails then ReadFailed else Look(w.store))
  {
    hide KVResult, KVApplied;
  }

  lemma EnabledWorld(w: World, step: Step)
    requires Enabled(w, step)
    ensures w.World?
  {}

  lemma {:induction false} SightSource(worlds: seq<World>, steps: seq<Step>, j: nat, id: nat, k: nat) returns (i: nat)
    requires IsRun(worlds, steps) && j < |worlds| && worlds[j].World?
    requires id in worlds[j].peers && k < |worlds[j].peers[id].sights|
    ensures i < j && ReadsAt(worlds, steps, i, id, k, worlds[j].peers[id].sights[k])
    decreases j
  {
    hide Enabled, Next, Look, SightOf;
    if j > 0 {
      var w := worlds[j - 1];
      assert w.World? by { EnabledWorld(w, steps[j - 1]); }
      SightsStep(w, steps[j - 1], id, k);
      i := j - 1;
      if k < |w.peers[id].sights| {
        i := SightSource(worlds, steps, j - 1, id, k);
      }
    }
  }

  lemma SightsAreRounds(w: World, id: nat)
    requires Inv(w) && id in w.peers
    ensures |w.peers[id].sights| == w.peers[id].tick
  {}

  // The sight a vote that takes the record over was sent on, and where it was first seen.
  lemma StableSight(w: World, id: nat) returns (s: Sight, m: nat)
    requires Inv(w) && Enabled(w, Apply(id))
    requires Look(w.store).instanceId !in {0, id} && Look(KVApplied(w.store, w.peers[id].queue[0].kv)).instanceId == id
    ensures var v := w.peers[id].queue[0];
            && v.sights <= w.peers[id].sights && v.kv.tick == |v.sights|
            && m + 4 < |v.sights| && s.Saw? && s.instanceId == Look(w.store).instanceId && v.sights[m] == s
            && forall k :: |v.sights| - 4 <= k < |v.sights| ==> v.sights[k] == s
  {
    hide TicksRise, SightsOk, CurrentOk;
    var v := w.peers[id].queue[0];
    assert PeerOk(w.accepted, id, w.peers[id]) && v in w.peers[id].queue && VoteOk(id, v);
    VoteAccepted(w, v.kv);
    var tick: nat :| Watched(v.sights, v.kv.oldInstanceId, tick, STABLE_ROUNDS);
    s :| s.Saw? && s.instanceId == v.kv.oldInstanceId && s.tick == tick && Stable(v.sights, s, STABLE_ROUNDS);
    var i :| 0 <= i < |v.sights| - STABLE_ROUNDS && v.sights[..|v.sights| - STABLE_ROUNDS][i] == s;
    m := i;
  }

  // The record passes from owner A to another manager only by a vote which that manager sent in a
  // round whose reading and the three before it, and one more before those, all found A's record:
  // from the first of the five readings to the last no vote of anybody was accepted.
  lemma Takeover(worlds: seq<World>, steps: seq<Step>, j: nat, id: nat) returns (b: seq<nat>)
    requires IsRun(worlds, steps) && j < |steps| && steps[j] == Apply(id)
    requires worlds[j].World? && worlds[j + 1].World?
    requires Look(worlds[j].store).instanceId !in {0, id} && Look(worlds[j + 1].store).instanceId == id
    ensures |b| == STABLE_ROUNDS + 1 == 5
    ensures forall k :: 0 <= k < |b| ==>
              && b[k] < j && steps[b[k]].BeginRound? && steps[b[k]].id == id && !steps[b[k]].readFails
              && worlds[b[k]].World?
    ensures forall k :: 0 <= k < |b| ==>
              && worlds[b[k]].accepted == worlds[b[0]].accepted
              && Look(worlds[b[k]].store).instanceId == Look(worlds[j].store).instanceId
              && id in worlds[b[k]].peers
    ensures id in worlds[j].peers && worlds[j].peers[id].queue != []
    ensures var sent := worlds[j].peers[id].queue[0].kv.tick;
            && (forall k :: 1 <= k < |b| ==> worlds[b[k]].peers[id].tick + |b| - k == sent)
            && worlds[b[0]].peers[id].tick + |b| <= sent
  {
    hide TicksRise, SightsRise, CurrentOk, Stable, Inv;
    RunKeepsInv(worlds, steps, j);
    var w := worlds[j];
    var s, m := StableSight(w, id);
    var v := w.peers[id].queue[0];
    var n := |v.sights|;
    var at := [m, n - 4, n - 3, n - 2, n - 1];
    b := [];
    while |b| < 5
      invariant |b| <= 5
      invariant forall k :: 0 <= k < |b| ==> b[k] < j && ReadsAt(worlds, steps, b[k], id, at[k], s)
    {
      var i := SightSource(worlds, steps, j, id, at[|b|]);
      b := b + [i];
    }
    forall k | 0 <= k < 5
      ensures worlds[b[k]].World? && worlds[b[k]].accepted == worlds[b[0]].accepted
      ensures worlds[b[k]].peers[id].tick == at[k]
    {
      assert ReadsAt(worlds, steps, b[k], id, at[k], s) && ReadsAt(worlds, steps, b[0], id, at[0], s);
      if b[k] <= b[0] {
        AcceptedGrows(worlds, steps, b[k], b[0]);
      } else {
        AcceptedGrows(worlds, steps, b[0], b[k]);
      }
      RunKeepsInv(worlds, steps, b[k]);
      SightsAreRounds(worlds[b[k]], id);
    }
  }

  // A manager in the leader state read the record in its latest round when it was its own.
  lemma LeaderReadItself(worlds: seq<World>, steps: seq<Step>, i: nat, id: nat)
    requires IsRun(worlds, steps) && i < |worlds| && worlds[i].World? && id in worlds[i].peers
    requires worlds[i].peers[id].m.state == Leader
    ensures var p := worlds[i].peers[id];
            p.selfRound == p.tick && 0 < p.sawSelf <= |worlds[i].accepted|
            && worlds[i].accepted[p.sawSelf - 1].instanceId == id
  {
    hide QueueOk, SightsOk, CurrentOk, TicksRise, IsRun;
    RunKeepsInv(worlds, steps, i);
    assert PeerOk(worlds[i].accepted, id, worlds[i].peers[id]);
  }

  // A leader whose record is gone, or cannot be read, is a follower after its next reading, and knows
  // the owner it read.
  lemma DeposedStepsDown(worlds: seq<World>, steps: seq<Step>, i: nat, id: nat)
    requires IsRun(worlds, steps) && i < |steps| && steps[i].BeginRound? && steps[i].id == id
    requires worlds[i].World? && id in worlds[i].peers && worlds[i].peers[id].m.state == Leader
    requires steps[i].readFails || Look(worlds[i].store).instanceId != id
    ensures worlds[i + 1].World? && worlds[i + 1].peers[id].m.state == Follower && worlds[i + 1].peers[id].phase == Idle
    ensures worlds[i + 1].peers[id].m.current ==
              if steps[i].readFails then NoLeader
              else Current(LeaderInfo(Look(worlds[i].store).instanceId, Look(worlds[i].store).tick, 0))
  {}

  // No manager ever panics, and while nobody has been elected nobody knows a leader.
  lemma NeverCrashes(worlds: seq<World>, steps: seq<Step>, i: nat)
    requires IsRun(worlds, steps) && i < |worlds|
    ensures worlds[i].World?
    ensures Look(worlds[i].store).instanceId == 0 ==>
              forall id :: id in worlds[i].peers ==>
                worlds[i].peers[id].m.current.NoLeader? && worlds[i].peers[id].m.state == Follower
  {
    hide QueueOk, SightsOk, TicksRise, IsRun, Watched;
    RunKeepsInv(worlds, steps, i);
    LookSees(worlds[i]);
    forall id | id in worlds[i].peers && worlds[i].accepted == []
      ensures worlds[i].peers[id].m.current.NoLeader? && worlds[i].peers[id].m.state == Follower
    {
      assert PeerOk(worlds[i].accepted, id, worlds[i].peers[id]);
    }
  }
}
