/**
 * What each step does, to the letter: when a message is accepted, what is counted, how far the round moves,
 * and which messages and timers are put out. Conditions are on the state before, in terms of the live blocks,
 * the validator lists and the tallies.
 */
module StepEffects {
  import opened Basics
  import opened BlockHistory
  import opened TreeSpec
  import opened ChainSpec
  import opened TallySpec
  import opened Election
  import opened TimeoutNames
  import opened ReplicaSpec
  import opened ReplicaSafety
  import opened ReplicaRuns
  import opened HighLoss

  /** Block i is live, with this identifier. */
  ghost predicate Named(t: Tree, i: nat, id: Bytes) {
    Live(t, i) && i < |t.hist| && t.hist[i].id == id
  }

  /** Block i is live, with this identifier and round. */
  ghost predicate Stands(t: Tree, i: nat, id: Bytes, round: int) {
    Named(t, i, id) && t.hist[i].round == round
  }

  lemma SearchExactly(s: Chain, round: int, id: Bytes)
    requires TreeOk(s.tree)
    ensures var r := Search(s, round, id);
      && (forall i: nat :: r == Ok(i) <==> Stands(s.tree, i, id, round))
      && (r == Err(NotFound) <==> id != [] && forall i: nat :: !Named(s.tree, i, id))
  {
    hide Live;
    forall i: nat ensures Named(s.tree, i, id) <==> LookUp(s.tree, id) == Some(i) {
      LookUpExact(s.tree, id, i);
      if Live(s.tree, i) {
        LiveInside(s.tree, i);
      }
    }
    if LookUp(s.tree, id).Some? {
      LookUpExact(s.tree, id, LookUp(s.tree, id).value);
      assert Named(s.tree, LookUp(s.tree, id).value, id);
    } else {
      EmptyKey(s.tree);
    }
  }

  // ---- Proposals ----

  /**
   * The proposal comes from the leader of its round, its parent stands, and its identifier is either new or
   * that of this very proposal: a block at this round under that parent.
   */
  ghost predicate Legitimate(s: Replica, n: QC, parent: QC)
    requires s.election.validators != [] && HistoryOk(s.chain.tree.hist)
  {
    var t := s.chain.tree;
    && LeaderAt(s.election, n.round) == Some(n.sender)
    && (exists p: nat :: Stands(t, p, parent.id, parent.round))
    && (|| (n.id != [] && forall i: nat :: !Named(t, i, n.id))
        || exists i: nat :: Stands(t, i, n.id, n.round) && i != t.root && t.hist[i].parentKey == parent.id
                            && t.hist[i].parent < |t.hist| && t.hist[t.hist[i].parent].round == parent.round)
  }

  /** The guard passes exactly the legitimate proposals, and blames the sender exactly when another validator leads. */
  lemma GuardExactly(s: Replica, n: QC, parent: QC)
    requires TreeOk(s.chain.tree) && HistoryOk(s.chain.tree.hist) && s.election.validators != []
    ensures CheckProposal(s, n, parent) == Done <==> Legitimate(s, n, parent)
    ensures CheckProposal(s, n, parent) == Rejected(BadSender) <==>
      LeaderAt(s.election, n.round).Some? && LeaderAt(s.election, n.round) != Some(n.sender)
  {
    hide Live, TreeOk, LookUp, LeaderAt, Search, Named;
    SearchExactly(s.chain, n.round, n.id);
    SearchExactly(s.chain, parent.round, parent.id);
    var r := Search(s.chain, n.round, n.id);
    if r.Ok? {
      assert Stands(s.chain.tree, r.value, n.id, n.round);
      if r.value != s.chain.tree.root {
        ParentInside(s.chain.tree, r.value, n.id);
      }
    }
    var q := Search(s.chain, parent.round, parent.id);
    if q.Ok? {
      assert Stands(s.chain.tree, q.value, parent.id, parent.round);
    }
  }

  lemma ParentInside(t: Tree, i: nat, id: Bytes)
    requires HistoryOk(t.hist) && Named(t, i, id) && i != t.root
    ensures t.hist[i].parent < |t.hist|
  {
    LiveParent(t, i);
  }

  /** The certificate the source builds for a proposal justified by j. */
  function ProposalCert(p: ProposalMsg, j: QC): QC {
    QC(p.round, p.id, j.round, j.id, p.peer)
  }

  /** The proposal passes its guards and the tree takes its block, or has it already. */
  ghost predicate AcceptsProposal(s: Replica, p: ProposalMsg, j: QC)
    requires s.election.validators != [] && HistoryOk(s.chain.tree.hist)
  {
    && Legitimate(s, ProposalCert(p, j), j)
    && exists q: nat :: Stands(s.chain.tree, q, j.id, j.round) && Taken(s.chain.tree, p.round, p.id, q)
  }

  /**
   * A proposal is voted for exactly when it is accepted. The round moves to the one after its parent's, if that
   * is later, and one vote for it goes to the leader of the round after. A proposal that changes anything at
   * all comes from the leader of its round; one that is refused sends nothing and leaves the tree as it was.
   */
  lemma ProposalExactly(cfg: Config, s: Replica, p: ProposalMsg)
    requires ReplicaOk(cfg, s)
    ensures Steppable(cfg, s) && s.election.validators != [] && HistoryOk(s.chain.tree.hist)
    ensures var (u, o) := StepProposal(cfg, s, p);
      match cfg.codec.des(p.justify)
      case None => o != Done && u == s
      case Some(j) =>
        && (o == Done <==> AcceptsProposal(s, p, j))
        && (o == Done ==>
              var to := LeaderAt(s.election, u.current + 1);
              && to.Some?
              && u == s.(chain := u.chain, current := Max(s.current, j.round + 1),
                         sent := s.sent + [SendVote(p.round, p.id, j.round, j.id, to.value)]))
        && (o != Done ==> u == s || (Legitimate(s, ProposalCert(p, j), j) && u == s.(current := Max(s.current, j.round + 1))))
        && (u != s ==> LeaderAt(s.election, p.round) == Some(p.peer))
  {
    hide ReplicaOk, TreeOk, HistoryOk, Live, ChainOk, LookUp, LeaderAt, Legitimate, CheckProposal, Search, CommitAbove, ExecuteNInsert,
      Taken, Faithful;
    OkFacts(cfg, s);
    if cfg.codec.des(p.justify).Some? {
      var j := cfg.codec.des(p.justify).value;
      var n := ProposalCert(p, j);
      GuardExactly(s, n, j);
      SearchExactly(s.chain, j.round, j.id);
      LegitimateLeads(s, n, j);
      if Search(s.chain, j.round, j.id).Ok? {
        var q := Search(s.chain, j.round, j.id).value;
        AdoptExactly(cfg, s, n, q);
        assert forall i: nat :: Stands(s.chain.tree, i, j.id, j.round) ==> i == q;
      }
    }
  }

  lemma LegitimateLeads(s: Replica, n: QC, j: QC)
    requires s.election.validators != [] && HistoryOk(s.chain.tree.hist)
    ensures Legitimate(s, n, j) ==> LeaderAt(s.election, n.round) == Some(n.sender)
    ensures Legitimate(s, n, j) ==> exists p: nat :: Stands(s.chain.tree, p, j.id, j.round)
  {
  }

  lemma AdoptExactly(cfg: Config, s: Replica, n: QC, q: nat)
    requires ReplicaOk(cfg, s) && Stands(s.chain.tree, q, n.parentID, n.parentRound)
    ensures Steppable(cfg, s)
    ensures var (u, o) := Adopt(cfg, s, n, q);
      var current := Max(s.current, n.parentRound + 1);
      && (o == Done <==> Taken(s.chain.tree, n.round, n.id, q))
      && (o == Done ==>
            && LeaderAt(s.election, current + 1).Some?
            && u == s.(chain := u.chain, current := current,
                       sent := s.sent + [SendVote(n.round, n.id, n.parentRound, n.parentID, LeaderAt(s.election, current + 1).value)]))
      && (o != Done ==> u == s.(current := current))
  {
    hide ReplicaOk, TreeOk, HistoryOk, Live, ChainOk, LookUp, LeaderAt, CommitAbove, ExecuteNInsert, Taken, Faithful, Insert, Moves;
    OkFacts(cfg, s);
    ReplicaCodec(cfg, s);
    AdoptKeeps(cfg, s, n, q);
    InsertTaken(s.chain.tree, n, cfg.codec.ser(n), q);
    ExecuteErrors(cfg.codec, s.chain, n);
  }

  lemma ReplicaCodec(cfg: Config, s: Replica)
    requires ReplicaOk(cfg, s)
    ensures Faithful(cfg.codec) && ChainOk(cfg.codec, s.chain)
  {
  }

  // ---- Votes ----

  /** The sender validates the round and the block stands at that round. */
  ghost predicate AcceptsVote(s: Replica, v: VoteMsg) {
    v.sender in ValidatorsAt(s.election, v.round) && exists b: nat :: Stands(s.chain.tree, b, v.id, v.round)
  }

  /** The tally of the vote's round and identifier with the vote counted. */
  ghost function VoteTally(s: Replica, v: VoteMsg): Tally {
    Counted(TallyAt(s.votes.sets, v.round, v.id), v.sender, ValidatorsAt(s.election, v.round))
  }

  ghost predicate CompletesVote(s: Replica, v: VoteMsg) {
    AcceptsVote(s, v) && TwoThirds(VoteTally(s, v))
  }

  /**
   * A vote that is not accepted changes nothing. One that is accepted is counted and logged. If that completes
   * a quorum the round moves past the vote's, and high to the block voted for unless a higher one is known;
   * otherwise nothing but the tally changes.
   */
  lemma VoteExactly(cfg: Config, s: Replica, v: VoteMsg, nextID: Bytes)
    requires ReplicaOk(cfg, s)
    ensures Steppable(cfg, s)
    ensures var (u, o) := StepVote(cfg, s, v, nextID);
      var t := VoteTally(s, v);
      && (o == Done <==> AcceptsVote(s, v)) && (o != Done ==> u == s)
      && (o == Done ==>
            && u.accepted == s.accepted + {(v.round, v.id, v.sender)}
            && TallyAt(u.votes.sets, v.round, v.id) == t
            && u.quorums == if TwoThirds(t) then s.quorums + [Quorum(v.round, v.id, t.count, t.validators)] else s.quorums)
      && (CompletesVote(s, v) ==>
            && u.current == Max(s.current, v.round + 1)
            && u.chain.tree == s.chain.tree && HighRound(u.chain) == Max(HighRound(s.chain), v.round)
            && (HighRound(s.chain) < v.round ==> Stands(u.chain.tree, u.chain.high, v.id, v.round))
            && (HighRound(s.chain) > v.round ==> u.chain == s.chain))
      && (!CompletesVote(s, v) ==> u == s.(votes := u.votes, accepted := u.accepted))
  {
    hide ReplicaOk, TreeOk, HistoryOk, Live, ChainOk, LookUp, TwoThirds, AddVote, CheckVotes, TallyAt, ValidatorsAt, Search, ProcessVote,
      Faithful, HighRound, Named, LeaderAt;
    OkFacts(cfg, s);
    SearchExactly(s.chain, v.round, v.id);
    var list := ValidatorsAt(s.election, v.round);
    var votes := AddVote(s.votes, v.round, v.id, v.sender, list);
    AddVoteEffect(s.votes, v.round, v.id, v.sender, list);
    CheckVotesEffect(votes, v.round, v.id);
    if Search(s.chain, v.round, v.id).Ok? {
      var b := Search(s.chain, v.round, v.id).value;
      assert Stands(s.chain.tree, b, v.id, v.round);
      VoteMoves(cfg, s, QC(v.round, v.id, v.parentRound, v.parentID, v.sender), b);
    }
  }

  lemma VoteMoves(cfg: Config, s: Replica, q: QC, b: nat)
    requires ReplicaOk(cfg, s) && Stands(s.chain.tree, b, q.id, q.round)
    ensures TreeOk(s.chain.tree) && s.chain.high < |s.chain.tree.hist|
    ensures var (u, e) := ProcessVote(cfg.codec, s.chain, q);
      && e == None && u.tree == s.chain.tree && HighRound(u) == Max(HighRound(s.chain), q.round) && u.high < |u.tree.hist|
      && (HighRound(s.chain) < q.round ==> u.high == b)
      && (HighRound(s.chain) > q.round ==> u == s.chain)
  {
    hide ReplicaOk, HistoryOk, TreeOk, Live, ChainOk, LookUp, Redirect, Above, Descends;
    OkFacts(cfg, s);
    ReplicaCodec(cfg, s);
    LookUpExact(s.chain.tree, q.id, b);
    VoteKeepsChain(cfg.codec, s.chain, q);
    RedirectExact(cfg.codec, s.chain, b);
  }

  // ---- Timeouts ----

  /** The tally of the timeout's round and index with the timeout counted. */
  ghost function TallyWith(s: Replica, t: TimeoutMsg): Tally {
    Counted(TallyAt(s.timeouts.sets, t.round, t.index), t.sender, ValidatorsAt(s.election, t.round))
  }

  ghost predicate Completes(s: Replica, t: TimeoutMsg) {
    AcceptsTimeout(s, t) && TwoThirds(TallyWith(s, t))
  }

  /** The timeout block q would be the parent of: its identifier is new, and the named parent is live and older. */
  ghost predicate Insertable(s: Replica, t: TimeoutMsg, q: nat) {
    TimeoutID(t.round, t.index) !in s.chain.tree.keys && Named(s.chain.tree, q, t.parentID) && s.chain.tree.hist[q].round < t.round
  }

  /**
   * A timeout is accepted exactly when its round is not behind the current one and its sender validates that
   * round; it is then counted and logged, and otherwise nothing changes. When it completes a quorum the round
   * moves to the next, and the timeout block is inserted, and high moved to it, exactly when its parent is
   * live and older and its identifier new.
   */
  lemma TimeoutExactly(cfg: Config, s: Replica, t: TimeoutMsg, nextID: Bytes)
    requires ReplicaOk(cfg, s)
    ensures Steppable(cfg, s)
    ensures var u := StepTimeout(cfg, s, t, nextID).0;
      var w := TallyWith(s, t);
      && (!AcceptsTimeout(s, t) ==> u == s)
      && (AcceptsTimeout(s, t) ==>
            && u.acceptedTimeouts == s.acceptedTimeouts + {(t.round, t.index, t.sender)}
            && TallyAt(u.timeouts.sets, t.round, t.index) == w
            && u.timeoutQuorums ==
                 if TwoThirds(w) then s.timeoutQuorums + [Quorum(t.round, t.index, w.count, w.validators)] else s.timeoutQuorums)
      && (Completes(s, t) ==> u.current == t.round + 1)
      && (!Completes(s, t) ==> u == s.(timeouts := u.timeouts, acceptedTimeouts := u.acceptedTimeouts))
      && (Completes(s, t) && (forall q: nat :: !Insertable(s, t, q)) ==> u.chain == s.chain && u.sent == s.sent && u.ticks == s.ticks)
      && (Completes(s, t) ==> forall q: nat :: Insertable(s, t, q) ==>
            && u.chain.tree.hist ==
                 s.chain.tree.hist + [Block(t.round, TimeoutID(t.round, t.index), cfg.codec.ser(TimeoutCert(t)), t.parentID, q)]
            && u.chain.high == |s.chain.tree.hist| && Live(u.chain.tree, u.chain.high)
            && StartsRound(cfg, s, u, nextID))
  {
    hide ReplicaOk, TreeOk, HistoryOk, Live, ChainOk, LookUp, TwoThirds, AddTimeout, TallyAt, ValidatorsAt, ExecuteNInsert, ProcessVote,
      Faithful, HighRound, Named, LeaderAt, Insertable, TimeoutID, StepTimeout, Steppable, Advances, StartsRound, NewRoundEvent;
    OkFacts(cfg, s);
    TimeoutCases(cfg, s, t, nextID);
    AddTimeoutEffect(s.timeouts, t.round, t.index, t.sender, ValidatorsAt(s.election, t.round));
    assert TimeoutTally(s, t) == TallyWith(s, t);
    if Completes(s, t) {
      TimeoutInserts(cfg, s, t);
      var e := ExecuteNInsert(cfg.codec, s.chain, TimeoutCert(t)).1;
      if e == None {
        CountedKeeps(cfg, s, t);
        Inserted(cfg, s, t, nextID);
      }
    }
  }

  /** What a new round puts out: the leader's proposal on the high certificate, and a timer for its role. */
  ghost predicate StartsRound(cfg: Config, s: Replica, u: Replica, nextID: Bytes) {
    && u.election.validators != [] && u.chain.high < |u.chain.tree.hist|
    && var leads := LeaderAt(u.election, u.current) == Some(cfg.host);
       && u.sent == (if leads then s.sent + [SendProposal(u.current, nextID, u.chain.tree.hist[u.chain.high].value)] else s.sent)
       && u.ticks == s.ticks + [Tick(if leads then CollectVotes else NextRound, u.current, u.timeouts.latestIndex)]
  }

  lemma NewRoundStarts(cfg: Config, s: Replica, nextID: Bytes)
    requires ReplicaOk(cfg, s)
    ensures s.election.validators != [] && s.chain.high < |s.chain.tree.hist|
    ensures StartsRound(cfg, s, NewRoundEvent(cfg, s, nextID), nextID)
  {
    hide ReplicaOk, LeaderAt;
    OkFacts(cfg, s);
  }

  lemma TimeoutInserts(cfg: Config, s: Replica, t: TimeoutMsg)
    requires ReplicaOk(cfg, s) && AcceptsTimeout(s, t)
    ensures TreeOk(s.chain.tree) && s.chain.high < |s.chain.tree.hist|
    ensures var (c, e) := ExecuteNInsert(cfg.codec, s.chain, TimeoutCert(t));
      && (e == None <==> exists q: nat :: Insertable(s, t, q))
      && (e != None ==> c == s.chain)
      && (forall q: nat :: Insertable(s, t, q) ==>
            c.tree.hist == s.chain.tree.hist + [Block(t.round, TimeoutID(t.round, t.index), cfg.codec.ser(TimeoutCert(t)), t.parentID, q)])
  {
    hide ReplicaOk, HistoryOk, Live, ChainOk, Faithful, HighRound, Redirect, Advances, ValidatorsAt, LookUp, TreeOk, Decimal;
    OkFacts(cfg, s);
    ReplicaCodec(cfg, s);
    var n := TimeoutCert(t);
    InsertExactly(s.chain.tree, n.round, n.id, Some(cfg.codec.ser(n)), n.parentID);
    ExecuteErrors(cfg.codec, s.chain, n);
    ExecuteKeepsChain(cfg.codec, s.chain, n);
    forall q: nat | Insertable(s, t, q) ensures LookUp(s.chain.tree, t.parentID) == Some(q) {
      LookUpExact(s.chain.tree, t.parentID, q);
    }
    if Insert(s.chain.tree, n.round, n.id, Some(cfg.codec.ser(n)), n.parentID).Ok? {
      var q: nat :| Live(s.chain.tree, q) && q < |s.chain.tree.hist| && s.chain.tree.hist[q].id == n.parentID
                    && s.chain.tree.hist[q].round < n.round;
      assert Insertable(s, t, q);
    }
  }

  lemma Inserted(cfg: Config, s: Replica, t: TimeoutMsg, nextID: Bytes)
    requires ReplicaOk(cfg, s) && CompletesTimeout(s, t)
    requires TreeOk(s.chain.tree) && s.chain.high < |s.chain.tree.hist| && ExecuteNInsert(cfg.codec, s.chain, TimeoutCert(t)).1 == None
    ensures Steppable(cfg, s)
    ensures var u := StepTimeout(cfg, s, t, nextID).0;
      && StartsRound(cfg, s, u, nextID)
      && u.chain.high == |s.chain.tree.hist| && Live(u.chain.tree, u.chain.high)
      && u.chain.tree == ExecuteNInsert(cfg.codec, s.chain, TimeoutCert(t)).0.tree
      && u == PassedTimeout(s, t).(chain := u.chain, sent := u.sent, ticks := u.ticks)
  {
    hide ReplicaOk, TreeOk, HistoryOk, Live, ChainOk, Faithful, HighRound, ExecuteNInsert, ProcessVote, LeaderAt, TwoThirds, TimeoutTally,
      Steppable, StepTimeout, AddTimeout, TimeoutID, Advances, ValidatorsAt;
    OkFacts(cfg, s);
    ReplicaCodec(cfg, s);
    TimeoutCases(cfg, s, t, nextID);
    var n := TimeoutCert(t);
    var c := ExecuteNInsert(cfg.codec, s.chain, n).0;
    ExecuteKeepsChain(cfg.codec, s.chain, n);
    ChainFacts(cfg.codec, c);
    TimeoutChain(cfg.codec, s.chain, n, c);
    LastLive(cfg.codec, s.chain, n);
    var s3 := TimeoutQuorumEffect(cfg, s, t, nextID);
    var s2 := PassedTimeout(s, t).(chain := ProcessVote(cfg.codec, c, n).0);
    PassedKeeps(cfg, s, t, s2);
    NewRoundStarts(cfg, s2, nextID);
    NewRoundKeeps(cfg, s2, nextID);
  }

  lemma PassedKeeps(cfg: Config, s: Replica, t: TimeoutMsg, s2: Replica)
    requires ReplicaOk(cfg, s) && CompletesTimeout(s, t) && s2 == PassedTimeout(s, t).(chain := s2.chain)
    requires ChainOk(cfg.codec, s2.chain) && HighRound(s2.chain) == t.round
    ensures ReplicaOk(cfg, s2)
  {
    hide Logged, ChainOk, ScheduleOk, HighRound, Faithful, TwoThirds, TimeoutTally, AddTimeout, ValidatorsAt, Advances;
    CountedKeeps(cfg, s, t);
  }

  lemma LastLive(c: Codec, s: Chain, n: QC)
    requires ChainOk(c, s) && Faithful(c) && ExecuteNInsert(c, s, n).1 == None
    ensures Live(ExecuteNInsert(c, s, n).0.tree, |s.tree.hist|)
  {
    hide HistoryOk, Live, ChainOk, Faithful, Redirect, Advances, LookUp, ExecuteNInsert;
    ExecuteKeepsChain(c, s, n);
  }

  // ---- The timer ----

  /**
   * The local timer fires for a round that is not behind when the host validates it, and otherwise nothing
   * changes. It then offers index 0 to the latest pair, which is their lexicographic maximum; sends one
   * timeout naming the high certificate, with the latest index; and restarts the timer with that index.
   */
  lemma TickExactly(cfg: Config, s: Replica, ti: Tick)
    requires ReplicaOk(cfg, s)
    ensures Steppable(cfg, s) && s.chain.high < |s.chain.tree.hist|
    ensures var (u, o) := StepTick(cfg, s, ti);
      var fires := s.current <= ti.round && cfg.host in ValidatorsAt(s.election, ti.round);
      var index := u.timeouts.latestIndex;
      && (o == Done <==> fires)
      && (!fires ==> u == s)
      && (fires ==>
            && u == s.(timeouts := s.timeouts.(latestRound := u.timeouts.latestRound, latestIndex := index),
                       sent := s.sent + [SendTimeout(ti.round, HighRound(s.chain), s.chain.tree.hist[s.chain.high].id, index)],
                       ticks := s.ticks + [Tick(NextRound, ti.round, index)])
            && LexLe(ti.round, 0, u.timeouts.latestRound, index)
            && LexLe(s.timeouts.latestRound, s.timeouts.latestIndex, u.timeouts.latestRound, index)
            && (u.timeouts.latestRound, index) in {(ti.round, 0), (s.timeouts.latestRound, s.timeouts.latestIndex)})
  {
    hide ReplicaOk, TreeOk, HistoryOk, Live, ChainOk, Faithful, ValidatorsAt;
    OkFacts(cfg, s);
    ReplicaCodec(cfg, s);
    ChainFacts(cfg.codec, s.chain);
  }

  // ---- Messages and timers of every step ----

  /** A vote starts a round by completing a quorum, a timeout by having its block inserted. */
  ghost predicate Starts(s: Replica, e: Event) {
    match e
    case OnVote(v, _) => CompletesVote(s, v)
    case OnTimeout(t, _) => Completes(s, t) && exists q: nat :: Insertable(s, t, q)
    case _ => false
  }

  lemma VoteStarts(cfg: Config, s: Replica, v: VoteMsg, nextID: Bytes)
    requires ReplicaOk(cfg, s)
    ensures Steppable(cfg, s)
    ensures var u := StepVote(cfg, s, v, nextID).0;
      if CompletesVote(s, v) then StartsRound(cfg, s, u, nextID) else u.sent == s.sent && u.ticks == s.ticks
  {
    hide ReplicaOk, StepVote, CompletesVote, StartsRound, NewRoundEvent, Moves, VoteTally, Steppable;
    VoteExactly(cfg, s, v, nextID);
    var s3 := VoteKeeps(cfg, s, v, nextID);
    NewRoundStarts(cfg, s3, nextID);
    NewRoundKeeps(cfg, s3, nextID);
    QuorumOfVote(cfg, s, v, nextID);
    RestartSame(cfg, s, s3, NewRoundEvent(cfg, s3, nextID), nextID);
  }

  lemma QuorumOfVote(cfg: Config, s: Replica, v: VoteMsg, nextID: Bytes)
    requires ReplicaOk(cfg, s)
    ensures Steppable(cfg, s)
    ensures CompletesVote(s, v) ==> StepVote(cfg, s, v, nextID).0.quorums != s.quorums
  {
    hide ReplicaOk, StepVote, VoteTally, TwoThirds, AcceptsVote;
    VoteExactly(cfg, s, v, nextID);
  }

  /** Only what the round starts with matters, not the state it was reached from. */
  lemma RestartSame(cfg: Config, s: Replica, s3: Replica, u: Replica, nextID: Bytes)
    requires StartsRound(cfg, s3, u, nextID) && s3.sent == s.sent && s3.ticks == s.ticks
    ensures StartsRound(cfg, s, u, nextID)
  {
  }

  /**
   * A new round is announced exactly when one starts: by one timer, and by one proposal on the high certificate
   * if the host leads it and by none otherwise. A proposal received sends at most a vote and sets no timer, and
   * no other event sends a proposal.
   */
  lemma SendsExactly(cfg: Config, s: Replica, e: Event)
    requires ReplicaOk(cfg, s)
    ensures Steppable(cfg, s)
    ensures var u := Step(cfg, s, e).0;
      && (Starts(s, e) ==> (e.OnVote? || e.OnTimeout?) && StartsRound(cfg, s, u, e.nextID))
      && (!Starts(s, e) ==>
            && (e.OnVote? || e.OnTimeout? || e.OnUpdate? ==> u.sent == s.sent && u.ticks == s.ticks)
            && (e.OnProposal? ==> u.ticks == s.ticks && (u.sent == s.sent || (|u.sent| == |s.sent| + 1 && u.sent[|s.sent|].SendVote?)))
            && (e.OnTick? ==>
                  || (u.sent == s.sent && u.ticks == s.ticks)
                  || (|u.sent| == |s.sent| + 1 && u.sent[|s.sent|].SendTimeout? && |u.ticks| == |s.ticks| + 1)))
      && s.sent <= u.sent && s.ticks <= u.ticks
  {
    hide ReplicaOk, StepProposal, StepVote, StepTimeout, StepTick, CompletesVote, Completes, Insertable, StartsRound, AcceptsProposal,
      Legitimate, LeaderAt, ValidatorsAt, HistoryOk, HighRound, TallyWith, TwoThirds, AcceptsTimeout, LexLe;
    OkFacts(cfg, s);
    match e
    case OnProposal(p) => ProposalExactly(cfg, s, p);
    case OnVote(v, nextID) =>
      VoteStarts(cfg, s, v, nextID);
      StartsGrow(cfg, s, StepVote(cfg, s, v, nextID).0, nextID);
    case OnTimeout(t, nextID) =>
      TimeoutExactly(cfg, s, t, nextID);
      StartsGrow(cfg, s, StepTimeout(cfg, s, t, nextID).0, nextID);
      QuietTimeout(cfg, s, t, nextID);
    case OnTick(ti) => TickExactly(cfg, s, ti);
    case OnUpdate(_, _) =>
  }

  lemma StartsGrow(cfg: Config, s: Replica, u: Replica, nextID: Bytes)
    ensures StartsRound(cfg, s, u, nextID) ==> s.sent <= u.sent && s.ticks <= u.ticks
  {
  }

  lemma QuietTimeout(cfg: Config, s: Replica, t: TimeoutMsg, nextID: Bytes)
    requires ReplicaOk(cfg, s)
    ensures Steppable(cfg, s)
    ensures !(Completes(s, t) && exists q: nat :: Insertable(s, t, q)) ==>
      StepTimeout(cfg, s, t, nextID).0.sent == s.sent && StepTimeout(cfg, s, t, nextID).0.ticks == s.ticks
  {
    hide ReplicaOk, StepTimeout, Insertable, StartsRound, TwoThirds, TallyWith, AcceptsTimeout;
    TimeoutExactly(cfg, s, t, nextID);
  }

  // ---- Runs ----

  /** Every vote a replica ever sent answers a proposal, for that round and identifier, from the leader of its round. */
  lemma {:induction false} VotesAnswerLeaders(cfg: Config, run: seq<Replica>, events: seq<Event>, k: nat, m: nat) returns (j: nat)
    requires IsRun(cfg, run, events) && k < |run| && m < |run[k].sent| && run[k].sent[m].SendVote?
    ensures j < k && events[j].OnProposal? && run[j].election.validators != []
    ensures var p := events[j].p;
      && run[k].sent[m].round == p.round && run[k].sent[m].id == p.id
      && LeaderAt(run[j].election, p.round) == Some(p.peer)
    decreases k
  {
    hide ReplicaOk, Step, Initial, Steppable, LeaderAt, StartsRound, Starts, Admissible;
    if k == 0 {
      NothingSent(cfg, run[0]);
      assert false;
    } else {
      RunOk(cfg, run, events, k - 1);
      assert Steps(cfg, run[k - 1], events[k - 1], run[k]);
      SendsExactly(cfg, run[k - 1], events[k - 1]);
      if m < |run[k - 1].sent| {
        j := VotesAnswerLeaders(cfg, run, events, k - 1, m);
      } else {
        j := k - 1;
        NewVote(cfg, run[j], events[j], m);
      }
    }
  }

  lemma NothingSent(cfg: Config, s: Replica)
    requires Initial(cfg, s)
    ensures s.sent == []
  {
    hide Faithful;
  }

  lemma NewVote(cfg: Config, s: Replica, e: Event, m: nat)
    requires ReplicaOk(cfg, s) && Steppable(cfg, s) && |s.sent| <= m < |Step(cfg, s, e).0.sent| && Step(cfg, s, e).0.sent[m].SendVote?
    ensures e.OnProposal? && s.election.validators != [] && LeaderAt(s.election, e.p.round) == Some(e.p.peer)
    ensures Step(cfg, s, e).0.sent[m].round == e.p.round && Step(cfg, s, e).0.sent[m].id == e.p.id
  {
    hide ReplicaOk, StepProposal, StepVote, StepTimeout, StepTick, Starts, LeaderAt, Legitimate, AcceptsProposal, HistoryOk;
    SendsExactly(cfg, s, e);
    if e.OnProposal? {
      ProposalExactly(cfg, s, e.p);
    }
  }
}
