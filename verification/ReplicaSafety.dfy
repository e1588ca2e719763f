/** What every step of a replica keeps, and what each step does. */
module ReplicaSafety {
  import opened Basics
  import opened BlockHistory
  import opened TreeSpec
  import opened ChainSpec
  import opened TallySpec
  import opened Election
  import opened TimeoutNames
  import opened ReplicaSpec

  /** Timeout quorums took effect at strictly increasing rounds, all behind the current one. */
  ghost predicate RoundsOk(quorums: seq<Quorum<int>>, current: int) {
    && (forall i, j :: 0 <= i < j < |quorums| ==> quorums[i].round < quorums[j].round)
    && (forall i :: 0 <= i < |quorums| ==> quorums[i].round < current)
  }

  /** Votes and timeouts are both counted as they were accepted, and only votes are ever forgotten. */
  ghost predicate LedgersOk(s: Replica) {
    && Logged(s.votes.sets, s.accepted, s.quorums, s.quorums)
    && Logged(s.timeouts.sets, s.acceptedTimeouts, s.timeoutQuorums, [])
  }

  ghost predicate ReplicaOk(cfg: Config, s: Replica) {
    && Faithful(cfg.codec) && ChainOk(cfg.codec, s.chain)
    && ScheduleOk(s.election)
    && HighRound(s.chain) < s.current
    && LedgersOk(s)
    && RoundsOk(s.timeoutQuorums, s.current)
  }

  /** Nothing is taken back: rounds, the high certificate, the committed root, and every log go forward only. */
  ghost predicate Moves(s: Replica, u: Replica) {
    && Advances(s.chain, u.chain)
    && s.current <= u.current
    && s.accepted <= u.accepted && s.quorums <= u.quorums
    && s.acceptedTimeouts <= u.acceptedTimeouts && s.timeoutQuorums <= u.timeoutQuorums
    && s.sent <= u.sent && s.ticks <= u.ticks
  }

  lemma OkFacts(cfg: Config, s: Replica)
    requires ReplicaOk(cfg, s)
    ensures Steppable(cfg, s) && s.election.validators != [] && 0 <= HighRound(s.chain) < s.current
    ensures TreeOk(s.chain.tree) && HistoryOk(s.chain.tree.hist) && s.chain.high < |s.chain.tree.hist|
    ensures s.chain.commit.Some? ==> s.chain.commit.value < |s.chain.tree.hist|
    ensures Advances(s.chain, s.chain)
  {
    hide ChainOk;
    ChainFacts(cfg.codec, s.chain);
    assert Steppable(cfg, s);
  }

  lemma NewReplicaOk(cfg: Config, round: int, index: int, id: Bytes, value: Bytes, validators: seq<PeerID>)
    requires Faithful(cfg.codec) && Names(cfg.codec, value, round, id)
    requires round >= 0 && id != [] && validators != []
    ensures ReplicaOk(cfg, NewReplica(round, index, id, value, validators))
  {
    hide Faithful;
    NewTreeOk(round, id, value);
  }

  /** A new replica is in the round after its start block, which is all its tree; nothing is counted, locked or committed. */
  lemma NewReplicaStarts(round: int, index: int, id: Bytes, value: Bytes, validators: seq<PeerID>)
    ensures var s := NewReplica(round, index, id, value, validators);
      && s.current == round + 1
      && s.chain.tree.hist == [Block(round, id, value, [], 0)] && s.chain.tree.root == 0 && s.chain.tree.keys == map[id := 0]
      && s.chain.high == 0 && s.chain.generic == 0 && s.chain.locked == None && s.chain.commit == None
      && (forall r, i :: TallyAt(s.votes.sets, r, i) == EMPTY) && (forall r, i :: TallyAt(s.timeouts.sets, r, i) == EMPTY)
      && (s.timeouts.latestRound, s.timeouts.latestIndex) == (round, index) && s.votes.latestRound == round
      && (forall q :: ValidatorsAt(s.election, q) == if q >= round then validators else [])
      && s.sent == [] && s.ticks == []
  {
    var e := NewSchedule(round, validators);
    forall q ensures ValidatorsAt(e, q) == if q >= round then validators else [] {
      assert ScanBack(e.steps, 1, q) == if q >= round then validators else ScanBack(e.steps, 0, q);
    }
  }

  // ---- Proposals ----

  /** A live block and its live descendants survive the commit that its own position triggers. */
  lemma CommitKeepsProposal(cfg: Codec, c: Chain, parent: nat)
    requires ChainOk(cfg, c) && Live(c.tree, parent)
    ensures var d := CommitAbove(c, parent);
      && ChainOk(cfg, d) && Advances(c, d) && d.tree.hist == c.tree.hist && d.high == c.high
      && (forall b: nat :: Live(c.tree, b) && Descends(c.tree.hist, b, parent) ==> Live(d.tree, b))
      && (forall k :: k in c.tree.keys && !Live(c.tree, c.tree.keys[k]) ==>
            k in d.tree.keys && d.tree.keys[k] == c.tree.keys[k] && !Live(d.tree, d.tree.keys[k]))
  {
    hide ChainOk, HistoryOk, TreeOk, Descends, Live, Reset, LookUp, Advances, Above, HeadsChain;
    ChainFacts(cfg, c);
    AboveHeads(c.tree, parent);
    if c.commit.Some? && Above(c.tree, parent, 3).Some? {
      var g := Above(c.tree, parent, 3).value;
      CommitKeepsChain(cfg, c, c.tree.hist[g].id);
      if c.tree.hist[c.commit.value].id == c.tree.hist[g].id {
        SameIdentifier(c.tree, c.commit.value, g);
        ResetKeepsBelow(c.tree, g, parent);
      }
    }
  }

  /** Live blocks with one identifier are one block. */
  lemma SameIdentifier(t: Tree, i: nat, j: nat)
    requires TreeOk(t) && Live(t, i) && Live(t, j) && i < |t.hist| && j < |t.hist| && t.hist[i].id == t.hist[j].id
    ensures i == j
  {
  }

  lemma ResetKeepsBelow(t: Tree, g: nat, parent: nat)
    requires TreeOk(t) && Live(t, g) && Descends(t.hist, parent, g)
    ensures var u := Reset(t, g);
      && u.hist == t.hist
      && (forall b: nat :: Live(t, b) && Descends(t.hist, b, parent) ==> Live(u, b))
      && (forall k :: k in t.keys && !Live(t, t.keys[k]) ==>
            k in u.keys && u.keys[k] == t.keys[k] && !Live(u, u.keys[k]))
  {
    ResetEffect(t, g);
    forall b: nat | Live(t, b) && Descends(t.hist, b, parent) ensures Live(Reset(t, g), b) {
      DescendsTrans(t.hist, b, parent, g);
    }
  }

  lemma AdoptChain(cfg: Codec, s: Chain, n: QC, parent: nat)
    requires Faithful(cfg) && ChainOk(cfg, s) && Live(s.tree, parent)
    requires s.tree.hist[parent].id == n.parentID && s.tree.hist[parent].round == n.parentRound
    ensures var u := ExecuteNInsert(cfg, s, n).0;
      && ChainOk(cfg, u) && Advances(s, u) && HighRound(u) <= Max(HighRound(s), n.parentRound)
      && Live(u.tree, parent)
      && ChainOk(cfg, CommitAbove(u, parent)) && Advances(s, CommitAbove(u, parent))
      && HighRound(CommitAbove(u, parent)) == HighRound(u)
  {
    LookUpExact(s.tree, n.parentID, parent);
    ExecuteKeepsChain(cfg, s, n);
    var u := ExecuteNInsert(cfg, s, n).0;
    assert Live(u.tree, parent);
    CommitKeepsProposal(cfg, u, parent);
    hide Descends, Live, LookUp, ExecuteNInsert, CommitAbove, Extends, Above, HeadsChain, Insert, ValuesOk;
    AdvancesTrans(s, u, CommitAbove(u, parent));
  }

  lemma AdoptKeeps(cfg: Config, s: Replica, n: QC, parent: nat)
    requires ReplicaOk(cfg, s) && Live(s.chain.tree, parent)
    requires s.chain.tree.hist[parent].id == n.parentID && s.chain.tree.hist[parent].round == n.parentRound
    ensures ReplicaOk(cfg, Adopt(cfg, s, n, parent).0) && Moves(s, Adopt(cfg, s, n, parent).0)
    ensures Adopt(cfg, s, n, parent).1 != Crashed
  {
    hide Steppable, TreeOk, LookUp, ChainOk, HistoryOk, Descends, Live, ExecuteNInsert, CommitAbove, Logged, ScheduleOk, Advances,
      Faithful, Above, LeaderAt, HighRound, ValuesOk, HeadsChain;
    OkFacts(cfg, s);
    AdoptChain(cfg.codec, s.chain, n, parent);
    LeaderNamed(s.election, Max(s.current, n.parentRound + 1) + 1);
  }

  lemma ProposalKeeps(cfg: Config, s: Replica, p: ProposalMsg)
    requires ReplicaOk(cfg, s)
    ensures ReplicaOk(cfg, StepProposal(cfg, s, p).0) && Moves(s, StepProposal(cfg, s, p).0)
  {
    hide ReplicaOk, TreeOk, HistoryOk, Live, ChainOk, LookUp, CheckProposal, Adopt, Moves, Faithful;
    OkFacts(cfg, s);
    KeepsSelf(cfg, s);
    var j := cfg.codec.des(p.justify);
    if j.Some? && Search(s.chain, j.value.round, j.value.id).Ok? {
      var parent := Search(s.chain, j.value.round, j.value.id).value;
      LookUpExact(s.chain.tree, j.value.id, parent);
      AdoptKeeps(cfg, s, QC(p.round, p.id, j.value.round, j.value.id, p.peer), parent);
    }
  }

  lemma KeepsSelf(cfg: Config, s: Replica)
    requires ReplicaOk(cfg, s)
    ensures Moves(s, s)
  {
    hide ReplicaOk;
    OkFacts(cfg, s);
  }

  // ---- Votes, timeouts, ticks, updates ----

  lemma NewRoundKeeps(cfg: Config, s: Replica, nextID: Bytes)
    requires ReplicaOk(cfg, s)
    ensures ReplicaOk(cfg, NewRoundEvent(cfg, s, nextID)) && Moves(s, NewRoundEvent(cfg, s, nextID))
    ensures var u := NewRoundEvent(cfg, s, nextID);
      u == s.(sent := u.sent, ticks := u.ticks)
  {
  }

  /**
   * A vote that starts a round has just completed a quorum for its own round and identifier, logged
   * in s3; any other vote starts no round.
   */
  lemma VoteKeeps(cfg: Config, s: Replica, v: VoteMsg, nextID: Bytes) returns (s3: Replica)
    requires ReplicaOk(cfg, s)
    ensures ReplicaOk(cfg, s3) && Moves(s, s3) && s3.sent == s.sent && s3.ticks == s.ticks && s3.election == s.election
    ensures var u := StepVote(cfg, s, v, nextID).0;
      && ReplicaOk(cfg, u) && Moves(s, u)
      && ((u == s3 && u.quorums == s.quorums)
          || (u == NewRoundEvent(cfg, s3, nextID) && |s3.quorums| == |s.quorums| + 1
              && s3.quorums[|s.quorums|].round == v.round && s3.quorums[|s.quorums|].key == v.id
              && Elements(ValidatorsAt(s.election, v.round)) <= s3.quorums[|s.quorums|].validators))
    ensures StepVote(cfg, s, v, nextID).1 != Crashed
  {
    hide TreeOk, Live, ChainOk, HistoryOk, Logged, ScheduleOk, TwoThirds, Advances, LookUp, TallyAt, ProcessVote, HighRound,
      Faithful, NewRoundEvent, AddVote, CheckVotes, ValidatorsAt, RoundsOk, Steppable, Search;
    OkFacts(cfg, s);
    s3 := s;
    if CheckSender(s, v.round, v.sender) && Search(s.chain, v.round, v.id).Ok? {
      var validators := ValidatorsAt(s.election, v.round);
      var votes := AddVote(s.votes, v.round, v.id, v.sender, validators);
      var tally := TallyAt(votes.sets, v.round, v.id);
      AddVoteEffect(s.votes, v.round, v.id, v.sender, validators);
      VoteLogged(s.votes, s.accepted, s.quorums, v.round, v.id, v.sender, validators);
      s3 := s.(votes := CheckVotes(votes, v.round, v.id), accepted := s.accepted + {(v.round, v.id, v.sender)},
               quorums := if TwoThirds(tally) then s.quorums + [Quorum(v.round, v.id, tally.count, tally.validators)] else s.quorums);
      assert ReplicaOk(cfg, s3) && Moves(s, s3);
      if TwoThirds(tally) {
        s3 := VoteQuorumKeeps(cfg, s3, v, nextID);
      }
    }
  }

  /** What a completed vote quorum does to the chain and to the round. */
  lemma VoteQuorumKeeps(cfg: Config, s2: Replica, v: VoteMsg, nextID: Bytes) returns (s3: Replica)
    requires ReplicaOk(cfg, s2) && Search(s2.chain, v.round, v.id).Ok?
    ensures var c := ProcessVote(cfg.codec, s2.chain, QC(v.round, v.id, v.parentRound, v.parentID, v.sender));
      && c.1.None?
      && s3 == s2.(chain := c.0, current := Max(s2.current, v.round + 1))
    ensures ReplicaOk(cfg, s3) && Moves(s2, s3)
    ensures ReplicaOk(cfg, NewRoundEvent(cfg, s3, nextID)) && Moves(s2, NewRoundEvent(cfg, s3, nextID))
  {
    hide TreeOk, Live, ChainOk, HistoryOk, Redirect, ValuesOk, HeadsChain, Descends, Logged, ScheduleOk, Advances, ProcessVote,
      HighRound, Faithful, NewRoundEvent;
    var q := QC(v.round, v.id, v.parentRound, v.parentID, v.sender);
    OkFacts(cfg, s2);
    VoteKeepsChain(cfg.codec, s2.chain, q);
    s3 := s2.(chain := ProcessVote(cfg.codec, s2.chain, q).0, current := Max(s2.current, v.round + 1));
    NewRoundKeeps(cfg, s3, nextID);
  }

  /** The chain after a timeout block was inserted and voted for: high is that block. */
  lemma TimeoutChain(c: Codec, s: Chain, q: QC, u: Chain)
    requires ChainOk(c, s) && Faithful(c) && HighRound(s) < q.round
    requires ChainOk(c, u) && ExecuteNInsert(c, s, q) == (u, None)
    ensures var (v, f) := ProcessVote(c, u, q);
      && f.None? && ChainOk(c, v) && Advances(s, v) && v.tree == u.tree
      && v.high == |s.tree.hist| < |v.tree.hist|
      && HighRound(v) == q.round && v.tree.hist[v.high].id == q.id
  {
    ExecuteKeepsChain(c, s, q);
    LookUpExact(u.tree, q.id, |s.tree.hist|);
    VoteKeepsChain(c, u, q);
    RedirectEffect(c, u, |s.tree.hist|);
    hide ChainOk, Descends, Live, HistoryOk, LookUp, Redirect, ExecuteNInsert;
    AdvancesTrans(s, u, ProcessVote(c, u, q).0);
  }

  // ---- Timeouts ----

  /** The certificate the source builds for a timeout. */
  ghost function TimeoutCert(t: TimeoutMsg): QC {
    QC(t.round, TimeoutID(t.round, t.index), t.parentRound, t.parentID, t.sender)
  }

  /** The tally of this round and index once the timeout is counted. */
  ghost function TimeoutTally(s: Replica, t: TimeoutMsg): Tally {
    TallyAt(AddTimeout(s.timeouts, t.round, t.index, t.sender, ValidatorsAt(s.election, t.round)).sets, t.round, t.index)
  }

  ghost function CountedTimeout(s: Replica, t: TimeoutMsg): Replica {
    s.(timeouts := AddTimeout(s.timeouts, t.round, t.index, t.sender, ValidatorsAt(s.election, t.round)),
       acceptedTimeouts := s.acceptedTimeouts + {(t.round, t.index, t.sender)})
  }

  /** Counted, and past the threshold: the quorum is logged and the round left behind. */
  ghost function PassedTimeout(s: Replica, t: TimeoutMsg): Replica {
    CountedTimeout(s, t).(current := t.round + 1,
      timeoutQuorums := s.timeoutQuorums + [Quorum(t.round, t.index, TimeoutTally(s, t).count, TimeoutTally(s, t).validators)])
  }

  /** This timeout passes its guards. */
  ghost predicate AcceptsTimeout(s: Replica, t: TimeoutMsg) {
    s.current <= t.round && t.sender in ValidatorsAt(s.election, t.round)
  }

  /** This timeout passes its guards and completes a quorum. */
  ghost predicate CompletesTimeout(s: Replica, t: TimeoutMsg) {
    AcceptsTimeout(s, t) && TwoThirds(TimeoutTally(s, t))
  }

  lemma CountedKeeps(cfg: Config, s: Replica, t: TimeoutMsg)
    requires ReplicaOk(cfg, s) && AcceptsTimeout(s, t)
    ensures var u := if CompletesTimeout(s, t) then PassedTimeout(s, t) else CountedTimeout(s, t);
      ReplicaOk(cfg, u) && Moves(s, u)
  {
    hide Logged, ChainOk, Advances, ScheduleOk, HighRound, Faithful, AddTimeout, ValidatorsAt, TallyAt, TwoThirds;
    OkFacts(cfg, s);
    TimeoutLogged(s.timeouts, s.acceptedTimeouts, s.timeoutQuorums, t.round, t.index, t.sender, ValidatorsAt(s.election, t.round));
  }

  /** The step, told from what its insertion does. */
  lemma TimeoutCases(cfg: Config, s: Replica, t: TimeoutMsg, nextID: Bytes)
    requires ReplicaOk(cfg, s)
    ensures Steppable(cfg, s) && TreeOk(s.chain.tree) && s.chain.high < |s.chain.tree.hist|
    ensures StepTimeout(cfg, s, t, nextID).1 != Crashed
    ensures var (c, e) := ExecuteNInsert(cfg.codec, s.chain, TimeoutCert(t));
      && ChainOk(cfg.codec, c)
      && StepTimeout(cfg, s, t, nextID).0 ==
           if !AcceptsTimeout(s, t) then s
           else if !CompletesTimeout(s, t) then CountedTimeout(s, t)
           else if e.Some? then PassedTimeout(s, t)
           else NewRoundEvent(cfg, PassedTimeout(s, t).(chain := ProcessVote(cfg.codec, c, TimeoutCert(t)).0), nextID)
  {
    hide TreeOk, Live, HistoryOk, Logged, ExecuteNInsert, ProcessVote, NewRoundEvent, AddTimeout, ValidatorsAt, ChainOk, TwoThirds,
      Advances, ScheduleOk, TimeoutID, HighRound, Faithful, Extends, LookUp, TallyAt;
    OkFacts(cfg, s);
    ExecuteKeepsChain(cfg.codec, s.chain, TimeoutCert(t));
    if AcceptsTimeout(s, t) && ExecuteNInsert(cfg.codec, s.chain, TimeoutCert(t)).1.None? {
      TimeoutChain(cfg.codec, s.chain, TimeoutCert(t), ExecuteNInsert(cfg.codec, s.chain, TimeoutCert(t)).0);
    }
  }

  /**
   * A timeout quorum at round r sets the current round to exactly r + 1. When the timeout block is
   * inserted, the high certificate is always redirected to it, one round behind the current one.
   */
  lemma TimeoutQuorumEffect(cfg: Config, s: Replica, t: TimeoutMsg, nextID: Bytes) returns (s3: Replica)
    requires ReplicaOk(cfg, s) && CompletesTimeout(s, t)
    ensures ReplicaOk(cfg, s3) && Moves(s, s3) && s3 == PassedTimeout(s, t).(chain := s3.chain)
    ensures var u := StepTimeout(cfg, s, t, nextID).0;
      u == s3 || (u == NewRoundEvent(cfg, s3, nextID) && s3.chain.tree.hist != s.chain.tree.hist)
    ensures var u := StepTimeout(cfg, s, t, nextID).0;
      && ReplicaOk(cfg, u) && Moves(s, u)
      && u.current == t.round + 1
      && |u.timeoutQuorums| == |s.timeoutQuorums| + 1 && u.timeoutQuorums[|s.timeoutQuorums|].round == t.round
      && u.timeoutQuorums[|s.timeoutQuorums|].key == t.index
      && (if u.chain.tree.hist == s.chain.tree.hist then u.chain == s.chain
          else
            && u.chain.high == |s.chain.tree.hist| < |u.chain.tree.hist|
            && HighRound(u.chain) + 1 == u.current
            && u.chain.tree.hist[u.chain.high].id == TimeoutID(t.round, t.index))
  {
    hide TreeOk, Live, LookUp, Redirect, ValuesOk, ChainOk, HeadsChain, Descends, HistoryOk, Logged, ScheduleOk, TwoThirds,
      ExecuteNInsert, ProcessVote, Advances, Faithful, AddTimeout, TimeoutID, Extends, StepTimeout, NewRoundEvent, Steppable,
      ValidatorsAt, HighRound, RoundsOk;
    OkFacts(cfg, s);
    CountedKeeps(cfg, s, t);
    TimeoutCases(cfg, s, t, nextID);
    ExecuteKeepsChain(cfg.codec, s.chain, TimeoutCert(t));
    var (c, e) := ExecuteNInsert(cfg.codec, s.chain, TimeoutCert(t));
    s3 := PassedTimeout(s, t);
    if e.None? {
      TimeoutChain(cfg.codec, s.chain, TimeoutCert(t), c);
      s3 := s3.(chain := ProcessVote(cfg.codec, c, TimeoutCert(t)).0);
      NewRoundKeeps(cfg, s3, nextID);
    }
  }

  /** A timeout that starts a round has just completed a quorum and had its block inserted, in s3. */
  lemma TimeoutKeeps(cfg: Config, s: Replica, t: TimeoutMsg, nextID: Bytes) returns (s3: Replica)
    requires ReplicaOk(cfg, s)
    ensures ReplicaOk(cfg, s3) && Moves(s, s3) && s3.sent == s.sent && s3.ticks == s.ticks && s3.election == s.election
    ensures var u := StepTimeout(cfg, s, t, nextID).0;
      && ReplicaOk(cfg, u) && Moves(s, u)
      && (u == s3 || (u == NewRoundEvent(cfg, s3, nextID) && CompletesTimeout(s, t) && s3.chain.tree.hist != s.chain.tree.hist))
      && (u.timeoutQuorums != s.timeoutQuorums ==> CompletesTimeout(s, t))
    ensures StepTimeout(cfg, s, t, nextID).1 != Crashed
  {
    hide ReplicaOk, Moves, NewRoundEvent, StepTimeout, AddTimeout, ValidatorsAt, TwoThirds, ExecuteNInsert, ProcessVote, ChainOk,
      TreeOk, Steppable;
    TimeoutCases(cfg, s, t, nextID);
    KeepsSelf(cfg, s);
    s3 := s;
    if CompletesTimeout(s, t) {
      s3 := TimeoutQuorumEffect(cfg, s, t, nextID);
    } else if AcceptsTimeout(s, t) {
      CountedKeeps(cfg, s, t);
      s3 := CountedTimeout(s, t);
    }
  }

  lemma TickKeeps(cfg: Config, s: Replica, ti: Tick)
    requires ReplicaOk(cfg, s)
    ensures ReplicaOk(cfg, StepTick(cfg, s, ti).0) && Moves(s, StepTick(cfg, s, ti).0)
  {
    hide ChainOk, HistoryOk, TreeOk, Live, Advances, Logged, ScheduleOk, RoundsOk, CheckSender, Faithful, HighRound;
    OkFacts(cfg, s);
  }

  /** A validator list must not be empty, or no leader could be named. */
  ghost predicate Admissible(e: Event) {
    e.OnUpdate? ==> e.next != []
  }

  lemma StepKeeps(cfg: Config, s: Replica, e: Event)
    requires ReplicaOk(cfg, s) && Admissible(e)
    ensures ReplicaOk(cfg, Step(cfg, s, e).0) && Moves(s, Step(cfg, s, e).0)
  {
    match e
    case OnProposal(p) => ProposalKeeps(cfg, s, p);
    case OnVote(v, nextID) => var s3 := VoteKeeps(cfg, s, v, nextID);
    case OnTimeout(t, nextID) => var s3 := TimeoutKeeps(cfg, s, t, nextID);
    case OnTick(ti) => TickKeeps(cfg, s, ti);
    case OnUpdate(round, next) => UpdateKeepsPast(s.election, round, next, 0);
  }
}
