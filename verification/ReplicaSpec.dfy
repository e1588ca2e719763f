/**
 * state/state.go, state/safetyrules.go and state/msg.go as one state machine over values: the four
 * message handlers with their guards, early returns and order of effects.
 */
module ReplicaSpec {
  import opened Basics
  import opened TreeSpec
  import opened ChainSpec
  import opened TallySpec
  import opened Election
  import opened TimeoutNames

  datatype ProposalMsg = ProposalMsg(round: int, id: Bytes, justify: Option<Bytes>, peer: PeerID)
  datatype VoteMsg = VoteMsg(round: int, id: Bytes, parentRound: int, parentID: Bytes, sender: PeerID)
  datatype TimeoutMsg = TimeoutMsg(round: int, index: int, parentRound: int, parentID: Bytes, sender: PeerID)

  /** What the handlers put on senderQueue. */
  datatype OutMsg =
    | SendProposal(round: int, id: Bytes, justify: Bytes)
    | SendVote(round: int, id: Bytes, parentRound: int, parentID: Bytes, to: PeerID)
    | SendTimeout(round: int, parentRound: int, parentID: Bytes, index: int)

  datatype TickKind = CollectVotes | NextRound
  datatype Tick = Tick(kind: TickKind, round: int, index: int)

  datatype Reason = BadJustify | NoParent | BadSender | BadProposal | NoBlock | Stale | InsertFailed(e: ChainError)
  /** Crashed is a Go run-time panic: an index below zero or a nil Parent dereferenced. */
  datatype Outcome = Done | Rejected(why: Reason) | Crashed

  datatype Config = Config(codec: Codec, host: PeerID)

  /** The last four fields are logs: they record what was accepted and are never read by a step. */
  datatype Replica = Replica(
    chain: Chain, votes: VoteState, timeouts: TimeoutState, current: int, election: Schedule,
    sent: seq<OutMsg>, ticks: seq<Tick>,
    accepted: Ballots<Bytes>, quorums: seq<Quorum<Bytes>>,
    acceptedTimeouts: Ballots<int>, timeoutQuorums: seq<Quorum<int>>)

  datatype Event =
    | OnProposal(p: ProposalMsg)
    | OnVote(v: VoteMsg, nextID: Bytes)
    | OnTimeout(t: TimeoutMsg, nextID: Bytes)
    | OnTick(ti: Tick)
    | OnUpdate(round: int, next: seq<PeerID>)

  ghost function NewReplica(round: int, index: int, id: Bytes, value: Bytes, validators: seq<PeerID>): Replica {
    Replica(NewChain(round, id, value), NewVotes(round), NewTimeouts(round, index), round + 1, NewSchedule(round, validators),
            [], [], {}, [], {}, [])
  }

  // ---- Steps ----

  /** What a step needs of the state it starts in. */
  ghost predicate Steppable(cfg: Config, s: Replica) {
    Faithful(cfg.codec) && ChainOk(cfg.codec, s.chain) && s.election.validators != []
  }

  ghost function CheckProposal(s: Replica, n: QC, parent: QC): Outcome
    requires TreeOk(s.chain.tree) && s.election.validators != []
  {
    var h := s.chain.tree.hist;
    match LeaderAt(s.election, n.round)
    case None => Crashed
    case Some(leader) =>
      if leader != n.sender then Rejected(BadSender)
      else match Search(s.chain, n.round, n.id)
      case Err(e) =>
        if e != NotFound then Rejected(BadProposal)
        else if Search(s.chain, parent.round, parent.id).Err? then Rejected(NoParent)
        else Done
      case Ok(i) =>
        if h[i].parentKey != parent.id then Rejected(BadProposal)
        else if i == s.chain.tree.root then Crashed
        else if h[h[i].parent].round != parent.round then Rejected(BadProposal)
        else if Search(s.chain, parent.round, parent.id).Err? then Rejected(NoParent)
        else Done
  }

  ghost function CheckSender(s: Replica, round: int, sender: PeerID): bool {
    sender in ValidatorsAt(s.election, round)
  }

  /** onReceiveProposal after its guards, with the justified parent found at `parent`. */
  ghost function Adopt(cfg: Config, s: Replica, n: QC, parent: nat): (Replica, Outcome)
    requires Steppable(cfg, s) && Live(s.chain.tree, parent)
  {
    ExecuteKeepsChain(cfg.codec, s.chain, n);
    var (c, e) := ExecuteNInsert(cfg.codec, s.chain, n);
    var s1 := s.(current := Max(s.current, n.parentRound + 1), chain := c);
    if e.Some? && e != Some(InTree(RepeatInsert)) then (s1, Rejected(InsertFailed(e.value)))
    else
      var s2 := s1.(chain := CommitAbove(c, parent));
      match LeaderAt(s.election, s2.current + 1)
      case None => (s2, Crashed)
      case Some(to) => (s2.(sent := s2.sent + [SendVote(n.round, n.id, n.parentRound, n.parentID, to)]), Done)
  }

  ghost function StepProposal(cfg: Config, s: Replica, p: ProposalMsg): (Replica, Outcome)
    requires Steppable(cfg, s)
  {
    match cfg.codec.des(p.justify)
    case None => (s, Rejected(BadJustify))
    case Some(parentQC) =>
      match Search(s.chain, parentQC.round, parentQC.id)
      case Err(_) => (s, Rejected(NoParent))
      case Ok(parent) =>
        var n := QC(p.round, p.id, parentQC.round, parentQC.id, p.peer);
        var check := CheckProposal(s, n, parentQC);
        if check != Done then (s, check) else Adopt(cfg, s, n, parent)
  }

  /** NewRoundEvent: lead the new round with a proposal, or wait for its leader. */
  ghost function NewRoundEvent(cfg: Config, s: Replica, nextID: Bytes): Replica
    requires s.election.validators != [] && s.chain.high < |s.chain.tree.hist|
  {
    var index := s.timeouts.latestIndex;
    if LeaderAt(s.election, s.current) != Some(cfg.host) then
      s.(ticks := s.ticks + [Tick(NextRound, s.current, index)])
    else
      s.(sent := s.sent + [SendProposal(s.current, nextID, s.chain.tree.hist[s.chain.high].value)],
         ticks := s.ticks + [Tick(CollectVotes, s.current, index)])
  }

  ghost function StepVote(cfg: Config, s: Replica, v: VoteMsg, nextID: Bytes): (Replica, Outcome)
    requires Steppable(cfg, s)
  {
    if !CheckSender(s, v.round, v.sender) then (s, Rejected(BadSender))
    else if Search(s.chain, v.round, v.id).Err? then (s, Rejected(NoBlock))
    else
      var votes := AddVote(s.votes, v.round, v.id, v.sender, ValidatorsAt(s.election, v.round));
      var tally := TallyAt(votes.sets, v.round, v.id);
      var s1 := s.(votes := CheckVotes(votes, v.round, v.id), accepted := s.accepted + {(v.round, v.id, v.sender)});
      if !TwoThirds(tally) then (s1, Done)
      else
        var s2 := s1.(quorums := s1.quorums + [Quorum(v.round, v.id, tally.count, tally.validators)]);
        VoteKeepsChain(cfg.codec, s.chain, QC(v.round, v.id, v.parentRound, v.parentID, v.sender));
        var (c, e) := ProcessVote(cfg.codec, s.chain, QC(v.round, v.id, v.parentRound, v.parentID, v.sender));
        if e.Some? then (s2.(chain := c), Rejected(NoBlock))
        else (NewRoundEvent(cfg, s2.(chain := c, current := Max(s.current, v.round + 1)), nextID), Done)
  }

  ghost function StepTimeout(cfg: Config, s: Replica, t: TimeoutMsg, nextID: Bytes): (Replica, Outcome)
    requires Steppable(cfg, s)
  {
    var q := QC(t.round, TimeoutID(t.round, t.index), t.parentRound, t.parentID, t.sender);
    if s.current > t.round then (s, Rejected(Stale))
    else if !CheckSender(s, t.round, t.sender) then (s, Rejected(BadSender))
    else
      var s1 := s.(timeouts := AddTimeout(s.timeouts, t.round, t.index, t.sender, ValidatorsAt(s.election, t.round)),
                   acceptedTimeouts := s.acceptedTimeouts + {(t.round, t.index, t.sender)});
      var tally := TallyAt(s1.timeouts.sets, t.round, t.index);
      if !TwoThirds(tally) then (s1, Done)
      else
        ExecuteKeepsChain(cfg.codec, s.chain, q);
        var (c, e) := ExecuteNInsert(cfg.codec, s.chain, q);
        var s2 := s1.(current := Max(s.current, t.round + 1), chain := c,
                      timeoutQuorums := s.timeoutQuorums + [Quorum(t.round, t.index, tally.count, tally.validators)]);
        if e == Some(InTree(RepeatInsert)) then (s2, Done)
        else if e.Some? then (s2, Rejected(InsertFailed(e.value)))
        else
          VoteKeepsChain(cfg.codec, c, q);
          var (d, f) := ProcessVote(cfg.codec, c, q);
          if f.Some? then (s2.(chain := d), Rejected(NoBlock))
          else (NewRoundEvent(cfg, s2.(chain := d), nextID), Done)
  }

  /** localTimeout */
  ghost function StepTick(cfg: Config, s: Replica, ti: Tick): (Replica, Outcome)
    requires Steppable(cfg, s)
  {
    match cfg.codec.des(Some(s.chain.tree.hist[s.chain.high].value))
    case None => (s, Rejected(BadJustify))
    case Some(high) =>
      if s.current > ti.round then (s, Rejected(Stale))
      else if !CheckSender(s, ti.round, cfg.host) then (s, Rejected(BadSender))
      else
        var timeouts := Raise(s.timeouts, ti.round, 0);
        (s.(timeouts := timeouts,
            sent := s.sent + [SendTimeout(ti.round, high.round, high.id, timeouts.latestIndex)],
            ticks := s.ticks + [Tick(NextRound, ti.round, timeouts.latestIndex)]), Done)
  }

  ghost function Step(cfg: Config, s: Replica, e: Event): (Replica, Outcome)
    requires Steppable(cfg, s)
  {
    match e
    case OnProposal(p) => StepProposal(cfg, s, p)
    case OnVote(v, nextID) => StepVote(cfg, s, v, nextID)
    case OnTimeout(t, nextID) => StepTimeout(cfg, s, t, nextID)
    case OnTick(ti) => StepTick(cfg, s, ti)
    case OnUpdate(round, next) => (s.(election := Updated(s.election, round, next)), Done)
  }
}
