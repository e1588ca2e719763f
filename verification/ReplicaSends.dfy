/** What a replica puts on its sender queue, when it starts a round, and when it aborts. */
module ReplicaSends {
  import opened Basics
  import opened BlockHistory
  import opened TreeSpec
  import opened ChainSpec
  import opened TallySpec
  import opened Election
  import opened ReplicaSpec
  import opened ReplicaSafety

  /** Block b is live with this identifier and round, a son of p at a larger round. */
  ghost predicate Extending(t: Tree, b: nat, p: nat, round: int, id: Bytes) {
    && Live(t, b) && t.hist[b].id == id && t.hist[b].round == round
    && b != t.root && t.hist[b].parent == p && p < |t.hist| && t.hist[p].round < round
  }

  /** The identifier is a key left in the index by a leaf that was pruned. */
  ghost predicate Reserved(t: Tree, id: Bytes) {
    id in t.keys && !Live(t, t.keys[id])
  }

  /** What is true, in the state after the step, of a message the step sent. */
  ghost predicate SendOk(cfg: Config, u: Replica, m: OutMsg) {
    var t := u.chain.tree;
    match m
    case SendProposal(round, _, justify) =>
      && round == u.current && u.election.validators != [] && LeaderAt(u.election, round) == Some(cfg.host)
      && u.chain.high < |t.hist| && justify == t.hist[u.chain.high].value
      && Names(cfg.codec, justify, HighRound(u.chain), t.hist[u.chain.high].id) && HighRound(u.chain) < round
    case SendVote(round, id, parentRound, parentID, to) =>
      && u.election.validators != [] && LeaderAt(u.election, u.current + 1) == Some(to)
      && parentRound < u.current
      && exists p: nat :: Live(t, p) && t.hist[p].id == parentID && t.hist[p].round == parentRound
           && (Reserved(t, id) || exists b: nat :: Extending(t, b, p, round, id))
    case SendTimeout(round, parentRound, parentID, index) =>
      && u.current <= round && cfg.host in ValidatorsAt(u.election, round) && index == u.timeouts.latestIndex
      && u.chain.high < |t.hist| && parentRound == HighRound(u.chain) && parentID == t.hist[u.chain.high].id
  }

  ghost predicate AllSendsOk(cfg: Config, s: Replica, u: Replica) {
    s.sent <= u.sent && forall k :: |s.sent| <= k < |u.sent| ==> SendOk(cfg, u, u.sent[k])
  }

  /** CheckProposal passed: a block already in the tree under the proposal's identifier is this very proposal. */
  lemma CheckedProposal(s: Chain, r: Replica, n: QC, parent: QC, p: nat, i: nat)
    requires TreeOk(s.tree) && r.chain == s && r.election.validators != []
    requires CheckProposal(r, n, parent) == Done && Search(s, parent.round, parent.id) == Ok(p)
    requires n.id in s.tree.keys && i == s.tree.keys[n.id] && Live(s.tree, i)
    ensures Extending(s.tree, i, p, n.round, n.id)
  {
    LookUpExact(s.tree, n.id, i);
    LookUpExact(s.tree, parent.id, p);
    assert Search(s, n.round, n.id) == Ok(i);
    LiveParent(s.tree, i);
  }

  /** After the insertion attempt an identifier that was not reserved is that of a block under the parent. */
  lemma InsertedBlock(c: Codec, s: Chain, r: Replica, n: QC, parent: QC, p: nat) returns (b: nat)
    requires ChainOk(c, s) && Faithful(c) && r.chain == s && r.election.validators != []
    requires CheckProposal(r, n, parent) == Done && Search(s, parent.round, parent.id) == Ok(p)
    requires n.parentID == parent.id && n.parentRound == parent.round && !Reserved(s.tree, n.id)
    requires var e := ExecuteNInsert(c, s, n).1; e.None? || e == Some(InTree(RepeatInsert))
    ensures Extending(ExecuteNInsert(c, s, n).0.tree, b, p, n.round, n.id)
  {
    ExecuteKeepsChain(c, s, n);
    LookUpExact(s.tree, n.parentID, p);
    if ExecuteNInsert(c, s, n).1.None? {
      b := |s.tree.hist|;
    } else {
      b := s.tree.keys[n.id];
      CheckedProposal(s, r, n, parent, p, b);
    }
  }

  /** After the insertion attempt the proposed block is under its parent, or its identifier was reserved. */
  lemma InsertedOrReserved(c: Codec, s: Chain, r: Replica, n: QC, parent: QC, p: nat)
    requires ChainOk(c, s) && Faithful(c) && r.chain == s && r.election.validators != []
    requires CheckProposal(r, n, parent) == Done && Search(s, parent.round, parent.id) == Ok(p)
    requires n.parentID == parent.id && n.parentRound == parent.round
    requires var e := ExecuteNInsert(c, s, n).1; e.None? || e == Some(InTree(RepeatInsert))
    ensures var u := ExecuteNInsert(c, s, n).0;
      && Live(u.tree, p) && u.tree.hist[p].id == n.parentID && u.tree.hist[p].round == n.parentRound
      && (Reserved(u.tree, n.id) || exists b: nat :: Extending(u.tree, b, p, n.round, n.id))
  {
    hide CheckProposal, Search, Extending, Insert, Redirect, Extends;
    SearchFound(s, parent.round, parent.id, p);
    ExecuteKeepsChain(c, s, n);
    var (u, e) := ExecuteNInsert(c, s, n);
    if Reserved(s.tree, n.id) {
      assert e.Some? by {
        RepeatedIfKnown(s.tree, n, c.ser(n));
      }
    } else {
      var b := InsertedBlock(c, s, r, n, parent, p);
    }
  }

  lemma RepeatedIfKnown(t: Tree, n: QC, value: Bytes)
    requires TreeOk(t) && n.id in t.keys
    ensures Insert(t, n.round, n.id, Some(value), n.parentID).Err?
  {
  }

  /**
   * A commit triggered by a proposal prunes neither the justified parent nor the proposed block, and
   * leaves a reserved key reserved.
   */
  lemma CommitKeepsSend(c: Codec, s: Chain, p: nat, round: int, id: Bytes)
    requires ChainOk(c, s) && Live(s.tree, p)
    requires Reserved(s.tree, id) || exists b: nat :: Extending(s.tree, b, p, round, id)
    ensures var u := CommitAbove(s, p);
      && Live(u.tree, p) && u.tree.hist == s.tree.hist
      && (Reserved(u.tree, id) || exists b: nat :: Extending(u.tree, b, p, round, id))
  {
    CommitKeepsProposal(c, s, p);
    if b: nat :| Extending(s.tree, b, p, round, id) {
      CommitKeepsExtending(c, s, b, p, round, id);
    }
  }

  lemma CommitKeepsExtending(c: Codec, s: Chain, b: nat, p: nat, round: int, id: Bytes)
    requires ChainOk(c, s) && Live(s.tree, p) && Extending(s.tree, b, p, round, id)
    ensures Extending(CommitAbove(s, p).tree, b, p, round, id)
  {
    CommitKeepsProposal(c, s, p);
    LiveParent(s.tree, b);
    assert Descends(s.tree.hist, b, p);
    CommitRoot(c, s, p, b);
  }

  lemma CommitRoot(c: Codec, s: Chain, p: nat, b: nat)
    requires ChainOk(c, s) && Live(s.tree, p) && Live(s.tree, b) && b != s.tree.root && s.tree.hist[b].parent == p
    ensures CommitAbove(s, p).tree.root != b
  {
    LiveParent(s.tree, b);
  }

  lemma ProposalSends(cfg: Config, s: Replica, p: ProposalMsg)
    requires ReplicaOk(cfg, s)
    ensures AllSendsOk(cfg, s, StepProposal(cfg, s, p).0)
  {
    var j := cfg.codec.des(p.justify);
    if j.Some? && Search(s.chain, j.value.round, j.value.id).Ok? {
      var parent := Search(s.chain, j.value.round, j.value.id).value;
      var n := QC(p.round, p.id, j.value.round, j.value.id, p.peer);
      if CheckProposal(s, n, j.value) == Done {
        AdoptSends(cfg, s, n, j.value, parent);
      }
    }
  }

  lemma AdoptSends(cfg: Config, s: Replica, n: QC, parentQC: QC, parent: nat)
    requires ReplicaOk(cfg, s) && Search(s.chain, parentQC.round, parentQC.id) == Ok(parent)
    requires CheckProposal(s, n, parentQC) == Done && n.parentID == parentQC.id && n.parentRound == parentQC.round
    ensures AllSendsOk(cfg, s, Adopt(cfg, s, n, parent).0)
  {
    hide TreeOk, LookUp, ChainOk, HistoryOk, Descends, Live, ExecuteNInsert, CommitAbove, Logged, ScheduleOk, Advances,
      Faithful, Above, LeaderAt, HighRound, ValuesOk, HeadsChain, CheckProposal, Search, Extending, Reserved, Names,
      RoundsOk, Steppable;
    OkFacts(cfg, s);
    SearchFound(s.chain, parentQC.round, parentQC.id, parent);
    AdoptChain(cfg.codec, s.chain, n, parent);
    var (c, e) := ExecuteNInsert(cfg.codec, s.chain, n);
    var u := Adopt(cfg, s, n, parent).0;
    if e.None? || e == Some(InTree(RepeatInsert)) {
      InsertedOrReserved(cfg.codec, s.chain, s, n, parentQC, parent);
      ChainFacts(cfg.codec, c);
      CommitKeepsSend(cfg.codec, c, parent, n.round, n.id);
      assert u.chain == CommitAbove(c, parent);
      assert Live(u.chain.tree, parent);
    }
  }

  lemma SearchFound(s: Chain, round: int, id: Bytes, p: nat)
    requires TreeOk(s.tree) && Search(s, round, id) == Ok(p)
    ensures Live(s.tree, p) && p < |s.tree.hist| && s.tree.hist[p].id == id && s.tree.hist[p].round == round
  {
  }

  lemma NewRoundSends(cfg: Config, s: Replica, nextID: Bytes)
    requires ReplicaOk(cfg, s)
    ensures AllSendsOk(cfg, s, NewRoundEvent(cfg, s, nextID))
  {
    hide HistoryOk, TreeOk, Live, LeaderAt, Advances, Logged, RoundsOk, ScheduleOk;
    OkFacts(cfg, s);
  }

  lemma VoteSends(cfg: Config, s: Replica, v: VoteMsg, nextID: Bytes)
    requires ReplicaOk(cfg, s)
    ensures AllSendsOk(cfg, s, StepVote(cfg, s, v, nextID).0)
  {
    hide ReplicaOk, StepVote, NewRoundEvent, SendOk, Moves;
    OkFacts(cfg, s);
    var s3 := VoteKeeps(cfg, s, v, nextID);
    NewRoundSends(cfg, s3, nextID);
  }

  lemma TimeoutSends(cfg: Config, s: Replica, t: TimeoutMsg, nextID: Bytes)
    requires ReplicaOk(cfg, s)
    ensures AllSendsOk(cfg, s, StepTimeout(cfg, s, t, nextID).0)
  {
    hide ReplicaOk, StepTimeout, NewRoundEvent, SendOk, Moves;
    OkFacts(cfg, s);
    var s3 := TimeoutKeeps(cfg, s, t, nextID);
    NewRoundSends(cfg, s3, nextID);
  }

  lemma TickSends(cfg: Config, s: Replica, ti: Tick)
    requires ReplicaOk(cfg, s)
    ensures AllSendsOk(cfg, s, StepTick(cfg, s, ti).0)
  {
    hide TreeOk, HistoryOk, Live, Descends, ValuesOk, HeadsChain, ChainOk, ScheduleOk, Logged, RoundsOk;
    OkFacts(cfg, s);
    ChainFacts(cfg.codec, s.chain);
  }

  /**
   * Every proposal sent is for the current round, led by the host, and justified by the high
   * certificate of a smaller round; every vote sent is for a block in the tree under a live parent, or
   * for a reserved identifier; every timeout sent names the high certificate.
   */
  lemma StepSends(cfg: Config, s: Replica, e: Event)
    requires ReplicaOk(cfg, s) && Admissible(e)
    ensures AllSendsOk(cfg, s, Step(cfg, s, e).0)
  {
    hide ReplicaOk, StepProposal, StepVote, StepTimeout, StepTick, SendOk;
    OkFacts(cfg, s);
    match e
    case OnProposal(p) => ProposalSends(cfg, s, p);
    case OnVote(v, nextID) => VoteSends(cfg, s, v, nextID);
    case OnTimeout(t, nextID) => TimeoutSends(cfg, s, t, nextID);
    case OnTick(ti) => TickSends(cfg, s, ti);
    case OnUpdate(_, _) =>
  }

  /** The aborts: a negative leader index, or the parent of a pruned root. */
  ghost predicate Aborts(cfg: Config, s: Replica, e: Event)
    requires TreeOk(s.chain.tree) && s.election.validators != []
  {
    e.OnProposal? &&
    match cfg.codec.des(e.p.justify)
    case None => false
    case Some(j) =>
      && Search(s.chain, j.round, j.id).Ok?
      && (|| LeaderAt(s.election, e.p.round).None?
          || (&& LeaderAt(s.election, e.p.round) == Some(e.p.peer)
              && Search(s.chain, e.p.round, e.p.id) == Ok(s.chain.tree.root)
              && s.chain.tree.hist[s.chain.tree.root].parentKey == j.id))
  }

  /** A step aborts exactly under those conditions, and then it has changed nothing. */
  lemma AbortsExactly(cfg: Config, s: Replica, e: Event)
    requires ReplicaOk(cfg, s) && Admissible(e)
    ensures Steppable(cfg, s) && (Step(cfg, s, e).1 == Crashed <==> Aborts(cfg, s, e))
    ensures Step(cfg, s, e).1 == Crashed ==> Step(cfg, s, e).0 == s
  {
    hide HistoryOk, Live, Descends, ChainOk, ReplicaOk, LookUp, StepVote, StepTimeout, Adopt, Faithful;
    OkFacts(cfg, s);
    match e
    case OnProposal(p) =>
      var j := cfg.codec.des(p.justify);
      if j.Some? && Search(s.chain, j.value.round, j.value.id).Ok? {
        var parent := Search(s.chain, j.value.round, j.value.id).value;
        SearchFound(s.chain, j.value.round, j.value.id, parent);
        AdoptKeeps(cfg, s, QC(p.round, p.id, j.value.round, j.value.id, p.peer), parent);
      }
    case OnVote(v, nextID) => var s3 := VoteKeeps(cfg, s, v, nextID);
    case OnTimeout(t, nextID) => var s3 := TimeoutKeeps(cfg, s, t, nextID);
    case OnTick(_) =>
    case OnUpdate(_, _) =>
  }
}
