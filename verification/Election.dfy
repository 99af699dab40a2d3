// The election manager of a Drummer server (election.go): what it does with one reading of the
// election record, one vote and, after a campaign, one more reading.
module Election {
  import opened KVStore

  const ELECTION_KEY: string := "election-key"

  const DEAD_LEADER_MIN_ROUND: nat := 3

  datatype NodeState = Follower | Leader

  datatype LeaderInfo = LeaderInfo(instanceId: nat, tick: nat, staticRound: nat)

  datatype CurrentLeader = NoLeader | Current(info: LeaderInfo)

  // A reading of the record; its instance id is 0 when there is no record.
  datatype Reading = ReadFailed | ReadOk(instanceId: nat, tick: nat)

  datatype VoteResult = VoteFailed | Voted(code: KVCode)

  // The two fields of the manager.
  datatype Manager = Manager(state: NodeState, current: CurrentLeader)

  // Where a round stands: over, or waiting for an answer.
  datatype Phase = Idle | Renewing | Claiming | Campaigning | Confirming

  datatype Begun = BeginPanic | Begun(m: Manager, phase: Phase)

  // ----- a round in steps, each between two waits

  function WithStatic(current: CurrentLeader, n: nat): CurrentLeader
  {
    if current.NoLeader? then NoLeader else Current(current.info.(staticRound := n))
  }

  function Reset(m: Manager): Manager
  {
    Manager(Follower, WithStatic(m.current, 0))
  }

  // The other owner was seen again, with the same tick or a newer one, or for the first time.
  function SeenAgain(current: CurrentLeader, id: nat, tick: nat): nat
  {
    if current.Current? && current.info.instanceId == id && current.info.tick == tick
    then current.info.staticRound + 1 else 0
  }

  // The record went back in time.
  predicate UnknownState(current: CurrentLeader, id: nat, tick: nat)
  {
    current.Current? && current.info.instanceId == id && tick < current.info.tick
  }

  predicate Dead(current: CurrentLeader)
  {
    current.Current? && current.info.staticRound > DEAD_LEADER_MIN_ROUND
  }

  // The round begins with a reading; a round that goes on has sent a vote.
  function Begin(m: Manager, id: nat, read: Reading, session: bool): Begun
  {
    if m.state == Leader then
      if read.ReadFailed? then Begun(Manager(Follower, NoLeader), Idle)
      else if read.instanceId != id then
        Begun(Manager(Follower, Current(LeaderInfo(read.instanceId, read.tick, 0))), Idle)
      else Begun(m, if session then Renewing else Idle)
    else if read.ReadFailed? then Begun(Reset(m), Idle)
    else if read.instanceId == 0 then Begun(m, if session then Campaigning else Idle)
    else if read.instanceId == id then
      if session then Begun(m, Claiming) else Begun(Reset(m), Idle)
    else if UnknownState(m.current, read.instanceId, read.tick) then BeginPanic
    else
      var n := SeenAgain(m.current, read.instanceId, read.tick);
      var m' := Manager(Follower, Current(LeaderInfo(read.instanceId, read.tick, n)));
      Begun(m', if n > DEAD_LEADER_MIN_ROUND && session then Campaigning else Idle)
  }

  // The vote a round in this phase has sent.
  function VoteOf(m: Manager, id: nat, tick: nat, phase: Phase): KV
  {
    KV(ELECTION_KEY, ELECTION_KEY, id,
       if phase == Campaigning && m.current.Current? then m.current.info.instanceId else 0, tick, false)
  }

  // The vote was answered.
  function Answered(m: Manager, phase: Phase, result: VoteResult): Begun
  {
    var won := result == Voted(KVUpdated);
    match phase
    case Renewing => Begun(if won then m else Manager(Follower, NoLeader), Idle)
    case Claiming => Begun(if result.VoteFailed? then Manager(Follower, NoLeader) else Manager(Leader, NoLeader), Idle)
    case Campaigning => if won then Begun(m, Confirming) else Begun(Reset(m), Idle)
    case _ => Begun(m, phase)
  }

  // The reading after a successful campaign.
  function Confirmed(m: Manager, id: nat, read: Reading): Manager
  {
    if read.ReadFailed? then Reset(m)
    else if read.instanceId == id then Manager(Leader, NoLeader)
    else m
  }

  // ----- the manager

  class ElectionManager {
    const instanceId: nat
    var state: NodeState
    var currentLeader: CurrentLeader

    ghost function View(): Manager
      reads this
    {
      Manager(state, currentLeader)
    }

    constructor (id: nat)
      ensures instanceId == id && View() == Manager(Follower, NoLeader)
    {
      instanceId := id;
      state := Follower;
      currentLeader := NoLeader;
    }

    method SetLeaderInfo(id: nat, tick: nat) returns (panicked: bool)
      modifies this`currentLeader
      ensures panicked == UnknownState(old(currentLeader), id, tick)
      ensures !panicked ==> currentLeader == Current(LeaderInfo(id, tick, SeenAgain(old(currentLeader), id, tick)))
    {
      if currentLeader.NoLeader? {
        currentLeader := Current(LeaderInfo(id, tick, 0));
        return false;
      }
      var c := currentLeader.info;
      if c.instanceId == id && c.tick < tick {
        currentLeader := Current(c.(tick := tick, staticRound := 0));
      } else if c.instanceId == id && c.tick == tick {
        currentLeader := Current(c.(staticRound := c.staticRound + 1));
      } else if c.instanceId != id {
        currentLeader := Current(LeaderInfo(id, tick, 0));
      } else {
        return true;
      }
      return false;
    }

    predicate LeaderDead()
      reads this`currentLeader
    {
      if currentLeader.NoLeader? then false else currentLeader.info.staticRound > DEAD_LEADER_MIN_ROUND
    }

    method BecomeFollower(l: CurrentLeader)
      modifies this
      ensures View() == Manager(Follower, WithStatic(l, 0))
    {
      currentLeader := l;
      if l.Current? {
        currentLeader := Current(l.info.(staticRound := 0));
      }
      state := Follower;
    }

    method ResetFollower()
      modifies this
      ensures View() == Reset(old(View()))
    {
      if currentLeader.Current? {
        currentLeader := Current(currentLeader.info.(staticRound := 0));
      }
      state := Follower;
    }

    method BecomeLeader()
      modifies this
      ensures View() == Manager(Leader, NoLeader)
    {
      currentLeader := NoLeader;
      state := Leader;
    }

    // failed: no session, or the vote was not answered.
    method RenewLeadership(tick: nat, session: bool, result: VoteResult) returns (votes: seq<KV>, failed: bool)
      modifies this
      ensures votes == if session then [KV(ELECTION_KEY, ELECTION_KEY, instanceId, 0, tick, false)] else []
      ensures failed <==> !session || result.VoteFailed?
      ensures View() == if !session || result == Voted(KVUpdated) then old(View()) else Manager(Follower, NoLeader)
    {
      if session {
        votes := [KV(ELECTION_KEY, ELECTION_KEY, instanceId, 0, tick, false)];
        if result.VoteFailed? {
          BecomeFollower(NoLeader);
          return votes, true;
        }
        if result.code != KVUpdated {
          BecomeFollower(NoLeader);
        }
        return votes, false;
      }
      return [], true;
    }

    // The round is the steps one after the other.
    ghost predicate RoundIs(m: Manager, tick: nat, read: Reading, session: bool, result: VoteResult, confirm: Reading,
                            votes: seq<KV>, panicked: bool)
      reads this
    {
      match Begin(m, instanceId, read, session)
      case BeginPanic => panicked
      case Begun(m1, phase) =>
        && !panicked
        && votes == (if phase == Idle then [] else [VoteOf(m1, instanceId, tick, phase)])
        && var a := Answered(m1, phase, result);
           View() == if a.phase == Confirming then Confirmed(a.m, instanceId, confirm) else a.m
    }

    method LeaderMain(tick: nat, read: Reading, session: bool, result: VoteResult) returns (votes: seq<KV>)
      requires state == Leader
      modifies this
      ensures RoundIs(old(View()), tick, read, session, result, ReadFailed, votes, false)
    {
      if read.ReadFailed? {
        BecomeFollower(NoLeader);
        return [];
      }
      if read.instanceId != instanceId {
        BecomeFollower(Current(LeaderInfo(read.instanceId, read.tick, 0)));
        return [];
      }
      var failed;
      votes, failed := RenewLeadership(tick, session, result);
    }

    method Campaign(tick: nat, session: bool, result: VoteResult, confirm: Reading) returns (votes: seq<KV>, panicked: bool)
      modifies this
      ensures panicked == (old(state) != Follower)
      ensures !panicked ==> votes == if session then [VoteOf(old(View()), instanceId, tick, Campaigning)] else []
      ensures !panicked && !session ==> View() == old(View())
      ensures !panicked && session ==>
                var a := Answered(old(View()), Campaigning, result);
                View() == if a.phase == Confirming then Confirmed(a.m, instanceId, confirm) else a.m
    {
      if state != Follower {
        return [], true;
      }
      var oldInstanceId := 0;
      if currentLeader.Current? {
        oldInstanceId := currentLeader.info.instanceId;
      }
      if !session {
        return [], false;
      }
      votes := [KV(ELECTION_KEY, ELECTION_KEY, instanceId, oldInstanceId, tick, false)];
      panicked := false;
      if result.VoteFailed? || result.code != KVUpdated {
        ResetFollower();
        return;
      }
      if confirm.ReadFailed? {
        ResetFollower();
        return;
      }
      if confirm.instanceId == instanceId {
        BecomeLeader();
      }
    }

    method FollowerMain(tick: nat, read: Reading, session: bool, result: VoteResult, confirm: Reading)
      returns (votes: seq<KV>, panicked: bool)
      requires state == Follower
      modifies this
      ensures RoundIs(old(View()), tick, read, session, result, confirm, votes, panicked)
    {
      votes, panicked := [], false;
      if read.ReadFailed? {
        ResetFollower();
        return;
      }
      if read.instanceId == 0 {
        votes, panicked := Campaign(tick, session, result, confirm);
        return;
      } else if read.instanceId == instanceId {
        var failed;
        votes, failed := RenewLeadership(tick, session, result);
        if failed {
          ResetFollower();
          return;
        }
        BecomeLeader();
        return;
      }
      panicked := SetLeaderInfo(read.instanceId, read.tick);
      if panicked {
        return;
      }
      if LeaderDead() {
        votes, panicked := Campaign(tick, session, result, confirm);
      }
    }

    // One tick of workerMain.
    method Round(tick: nat, read: Reading, session: bool, result: VoteResult, confirm: Reading)
      returns (votes: seq<KV>, panicked: bool)
      modifies this
      ensures RoundIs(old(View()), tick, read, session, result, confirm, votes, panicked)
    {
      if state == Leader {
        votes := LeaderMain(tick, read, session, result);
        panicked := false;
      } else {
        votes, panicked := FollowerMain(tick, read, session, result, confirm);
      }
    }
  }

  // ----- who leads after a renewal

  // A manager that read itself as owner, sent its renewal and was told it did not count: a leader
  // steps down, a follower is promoted all the same.
  lemma RejectedRenewal(m: Manager, id: nat, tick: nat, code: KVCode)
    requires id != 0 && code != KVUpdated
    ensures var b := Begin(m, id, ReadOk(id, tick), true);
            b.Begun? && (Answered(b.m, b.phase, Voted(code)).m.state == Leader <==> m.state == Follower)
  {}

  // A whole round ends in the leader state exactly when the manager read itself as owner and: it
  // was the leader and its vote, if it had a session, counted; or it was a follower and its vote
  // was answered, whatever the answer; or it campaigned, won, and then read itself as owner.
  lemma WhoLeads(m: Manager, id: nat, read: Reading, session: bool, result: VoteResult, confirm: Reading)
    requires id != 0 && Begin(m, id, read, session).Begun?
    ensures var b := Begin(m, id, read, session);
            var a := Answered(b.m, b.phase, result);
            var m' := if a.phase == Confirming then Confirmed(a.m, id, confirm) else a.m;
            m'.state == Leader <==>
              || (m.state == Leader && read.ReadOk? && read.instanceId == id && (session ==> result == Voted(KVUpdated)))
              || (m.state == Follower && read.ReadOk? && read.instanceId == id && session && result.Voted?)
              || (m.state == Follower && read.ReadOk? && b.phase == Campaigning
                  && result == Voted(KVUpdated) && confirm.ReadOk? && confirm.instanceId == id)
  {}

  // ----- after a lost campaign

  // What one round is told.
  datatype Learned = Learned(read: Reading, session: bool, result: VoteResult, confirm: Reading)

  // The phase a round reaches with its reading.
  function PhaseReached(m: Manager, id: nat, h: Learned): Phase
  {
    var b := Begin(m, id, h.read, h.session);
    if b.Begun? then b.phase else Idle
  }

  // A whole round takes the manager from m to m'.
  ghost predicate RoundTakes(m: Manager, id: nat, h: Learned, m': Manager)
  {
    var b := Begin(m, id, h.read, h.session);
    && b.Begun?
    && var a := Answered(b.m, b.phase, h.result);
       m' == if a.phase == Confirming then Confirmed(a.m, id, h.confirm) else a.m
  }

  // The known owner has been seen n times again at most.
  ghost predicate SeenAtMost(m: Manager, n: nat)
  {
    m.current.Current? ==> m.current.info.staticRound <= n
  }

  // A campaign that did not count, or whose owner could not be read afterwards, leaves a follower of
  // the same owner that starts counting again.
  lemma LostCampaign(m: Manager, id: nat, result: VoteResult)
    requires result != Voted(KVUpdated)
    ensures var a := Answered(m, Campaigning, result);
            && a.phase == Idle && a.m == Confirmed(m, id, ReadFailed)
            && a.m.state == Follower && SeenAtMost(a.m, 0) && a.m.current.Current? == m.current.Current?
            && (m.current.Current? ==> a.m.current.info.instanceId == m.current.info.instanceId
                                       && a.m.current.info.tick == m.current.info.tick)
  {}

  // A claim that was not answered leaves a follower that knows nobody; a campaign that counted, after
  // which somebody else is read, changes nothing.
  lemma NotConfirmed(m: Manager, id: nat, read: Reading)
    requires read.ReadOk? && read.instanceId != id
    ensures Answered(m, Claiming, VoteFailed) == Begun(Manager(Follower, NoLeader), Idle)
    ensures Answered(m, Campaigning, Voted(KVUpdated)).phase == Confirming && Answered(m, Campaigning, Voted(KVUpdated)).m == m
    ensures Confirmed(m, id, read) == m
  {}

  lemma OneRoundMore(m: Manager, id: nat, h: Learned, m': Manager, n: nat)
    requires RoundTakes(m, id, h, m') && SeenAtMost(m, n)
    ensures SeenAtMost(m', n + 1)
    ensures PhaseReached(m, id, h) == Campaigning && h.read.instanceId != 0 ==> n >= 3
  {}

  lemma CampaignRead(m: Manager, id: nat, h: Learned)
    ensures PhaseReached(m, id, h) == Campaigning ==> h.read.ReadOk?
  {}

  // So for three rounds after a lost campaign a manager campaigns against nobody.
  lemma {:induction false} LostCampaignWaits(ms: seq<Manager>, hs: seq<Learned>, id: nat, before: Manager, result: VoteResult, i: nat)
    requires result != Voted(KVUpdated) && |ms| == |hs| + 1 && ms[0] == Answered(before, Campaigning, result).m
    requires forall k :: 0 <= k < |hs| ==> RoundTakes(ms[k], id, hs[k], ms[k + 1])
    requires i < |hs|
    ensures SeenAtMost(ms[i], i)
    ensures i < 3 && PhaseReached(ms[i], id, hs[i]) == Campaigning ==> hs[i].read == ReadOk(0, hs[i].read.tick)
  {
    hide SeenAtMost, RoundTakes, Answered, PhaseReached;
    LostCampaign(before, id, result);
    if i > 0 {
      LostCampaignWaits(ms, hs, id, before, result, i - 1);
      OneRoundMore(ms[i - 1], id, hs[i - 1], ms[i], i - 1);
    }
    CampaignRead(ms[i], id, hs[i]);
    OneRoundMore(ms[i], id, hs[i], ms[i + 1], i);
  }
}
