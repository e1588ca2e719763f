/** When the high pointer survives pruning, so that the justify a leader hands out names a live block. */
module HighAnchoring {
  import opened Basics
  import opened BlockHistory
  import opened TreeSpec
  import opened ChainSpec
  import opened TallySpec
  import opened Election
  import opened TimeoutNames
  import opened ReplicaSpec
  import opened ReplicaSafety
  import opened ReplicaSends
  import opened ReplicaRuns

  /** High is live, and below the commit pointer if there is one. */
  ghost predicate HighAnchored(s: Chain) {
    Live(s.tree, s.high) && (s.commit.Some? ==> Descends(s.tree.hist, s.high, s.commit.value))
  }

  /** The step moved high to a block off the commit pointer's branch. */
  ghost predicate Strays(s: Chain, u: Chain) {
    u.high != s.high && u.commit.Some? && !Descends(u.tree.hist, u.high, u.commit.value)
  }

  lemma RedirectAnchored(c: Codec, s: Chain, b: nat)
    requires ChainOk(c, s) && Live(s.tree, b) && HighAnchored(s)
    ensures Redirect(c, s, b).Some?
    ensures var u := Redirect(c, s, b).value;
      u.tree == s.tree && Live(u.tree, u.high) && (u.high == s.high ==> HighAnchored(u))
  {
    RedirectEffect(c, s, b);
  }

  lemma ExecuteAnchored(c: Codec, s: Chain, n: QC)
    requires ChainOk(c, s) && Faithful(c) && HighAnchored(s)
    ensures var u := ExecuteNInsert(c, s, n).0;
      && u.tree.root == s.tree.root
      && (u.high != s.high ==> LookUp(s.tree, n.parentID) == Some(u.high))
      && (u.high == s.high ==> HighAnchored(u))
  {
    if Insert(s.tree, n.round, n.id, Some(c.ser(n)), n.parentID).Ok? {
      var t := Insert(s.tree, n.round, n.id, Some(c.ser(n)), n.parentID).value;
      InsertEffect(s.tree, n.round, n.id, Some(c.ser(n)), n.parentID);
      InsertKeepsChain(c, s, n);
      var s1 := s.(tree := t);
      if s.commit.Some? {
        DescendsPrefix(s.tree.hist, t.hist, s.high, s.commit.value);
      }
      RedirectAnchored(c, s1, t.hist[|s.tree.hist|].parent);
      RedirectEffect(c, s1, t.hist[|s.tree.hist|].parent);
    }
  }

  lemma CommitAnchored(c: Codec, s: Chain, key: Bytes)
    requires ChainOk(c, s) && HighAnchored(s)
    ensures HighAnchored(ProcessCommit(s, key))
  {
    if s.commit.Some? {
      ResetEffect(s.tree, s.commit.value);
    }
  }

  lemma ProposalAnchored(cfg: Config, s: Replica, p: ProposalMsg)
    requires ReplicaOk(cfg, s) && HighAnchored(s.chain)
    requires !Strays(s.chain, StepProposal(cfg, s, p).0.chain)
    ensures HighAnchored(StepProposal(cfg, s, p).0.chain)
  {
    hide HistoryOk, TreeOk, Live, Descends, ChainOk, Logged, ScheduleOk, RoundsOk, Faithful, LookUp,
      ExecuteNInsert, CommitAbove, Strays, HighAnchored, CheckProposal, LeaderAt, HighRound;
    OkFacts(cfg, s);
    var j := cfg.codec.des(p.justify);
    if j.Some? && Search(s.chain, j.value.round, j.value.id).Ok? {
      var parent := Search(s.chain, j.value.round, j.value.id).value;
      SearchFound(s.chain, j.value.round, j.value.id, parent);
      AdoptAnchored(cfg, s, QC(p.round, p.id, j.value.round, j.value.id, p.peer), parent);
    }
  }

  lemma AdoptAnchored(cfg: Config, s: Replica, n: QC, parent: nat)
    requires ReplicaOk(cfg, s) && HighAnchored(s.chain)
    requires Live(s.chain.tree, parent) && LookUp(s.chain.tree, n.parentID) == Some(parent)
    requires s.chain.tree.hist[parent].id == n.parentID && s.chain.tree.hist[parent].round == n.parentRound
    ensures var u := ExecuteNInsert(cfg.codec, s.chain, n).0;
      && ChainOk(cfg.codec, u) && Live(u.tree, parent)
      && (ExecuteNInsert(cfg.codec, s.chain, n).1.Some? ==> u == s.chain)
      && (!Strays(s.chain, CommitAbove(u, parent)) ==> HighAnchored(CommitAbove(u, parent)))
  {
    hide Live, Descends, HistoryOk, TreeOk, LookUp, ExecuteNInsert, ValuesOk, Faithful, Advances, HeadsChain;
    OkFacts(cfg, s);
    ExecuteKeepsChain(cfg.codec, s.chain, n);
    ExecuteAnchored(cfg.codec, s.chain, n);
    AdoptChain(cfg.codec, s.chain, n, parent);
    var u := ExecuteNInsert(cfg.codec, s.chain, n).0;
    ChainFacts(cfg.codec, u);
    CommitStays(cfg.codec, u, parent);
  }

  /** Committing above a block leaves that block live, and an anchored high anchored. */
  lemma CommitStays(c: Codec, u: Chain, parent: nat)
    requires ChainOk(c, u) && Live(u.tree, parent)
    ensures var d := CommitAbove(u, parent);
      && Live(d.tree, parent) && d.high == u.high && d.commit == u.commit && d.tree.hist == u.tree.hist
      && (HighAnchored(u) ==> HighAnchored(d))
  {
    hide ChainOk, HistoryOk, TreeOk, Live, HighAnchored, Advances, Reset;
    ChainFacts(c, u);
    CommitKeepsProposal(c, u, parent);
    DescendsSelf(u.tree.hist, parent);
    if Above(u.tree, parent, 3).Some? && HighAnchored(u) {
      CommitAnchored(c, u, u.tree.hist[Above(u.tree, parent, 3).value].id);
    }
  }

  lemma VoteCases(cfg: Config, s: Replica, v: VoteMsg, nextID: Bytes)
    requires ReplicaOk(cfg, s)
    ensures var q := QC(v.round, v.id, v.parentRound, v.parentID, v.sender);
      || StepVote(cfg, s, v, nextID).0.chain == s.chain
      || StepVote(cfg, s, v, nextID).0.chain == ProcessVote(cfg.codec, s.chain, q).0
  {
    hide ReplicaOk, HistoryOk, TreeOk, ChainOk, Live, ProcessVote, TwoThirds, AddVote, CheckVotes, TallyAt, ValidatorsAt, LeaderAt,
      Search, CheckSender, Faithful;
    OkFacts(cfg, s);
  }

  lemma VoteAnchored(cfg: Config, s: Replica, v: VoteMsg, nextID: Bytes)
    requires ReplicaOk(cfg, s) && HighAnchored(s.chain)
    requires !Strays(s.chain, StepVote(cfg, s, v, nextID).0.chain)
    ensures HighAnchored(StepVote(cfg, s, v, nextID).0.chain)
  {
    hide StepVote, HistoryOk, TreeOk, Logged, ScheduleOk, RoundsOk, Redirect, ChainOk;
    OkFacts(cfg, s);
    VoteCases(cfg, s, v, nextID);
    if LookUp(s.chain.tree, v.id).Some? {
      RedirectAnchored(cfg.codec, s.chain, LookUp(s.chain.tree, v.id).value);
    }
  }

  lemma TimeoutAnchored(cfg: Config, s: Replica, t: TimeoutMsg, nextID: Bytes)
    requires ReplicaOk(cfg, s) && HighAnchored(s.chain)
    requires !Strays(s.chain, StepTimeout(cfg, s, t, nextID).0.chain)
    ensures HighAnchored(StepTimeout(cfg, s, t, nextID).0.chain)
  {
    hide HistoryOk, TreeOk, Live, Descends, ChainOk, Logged, ScheduleOk, RoundsOk, Faithful, LookUp, ExecuteNInsert,
      ProcessVote, CheckSender, HighRound, AddTimeout, TallyAt, TwoThirds, ValidatorsAt, TimeoutID, LeaderAt, Advances;
    OkFacts(cfg, s);
    var q := QC(t.round, TimeoutID(t.round, t.index), t.parentRound, t.parentID, t.sender);
    ExecuteKeepsChain(cfg.codec, s.chain, q);
    var (c, e) := ExecuteNInsert(cfg.codec, s.chain, q);
    if e.None? && HighRound(s.chain) < q.round {
      TimeoutChain(cfg.codec, s.chain, q, c);
    }
  }

  lemma StepAnchored(cfg: Config, s: Replica, e: Event)
    requires ReplicaOk(cfg, s) && Admissible(e) && HighAnchored(s.chain)
    requires Steppable(cfg, s) && !Strays(s.chain, Step(cfg, s, e).0.chain)
    ensures HighAnchored(Step(cfg, s, e).0.chain)
  {
    hide ReplicaOk, StepProposal, StepVote, StepTimeout, HighAnchored, Strays, Steppable;
    match e
    case OnProposal(p) => ProposalAnchored(cfg, s, p);
    case OnVote(v, nextID) => VoteAnchored(cfg, s, v, nextID);
    case OnTimeout(t, nextID) => TimeoutAnchored(cfg, s, t, nextID);
    case OnTick(_) =>
    case OnUpdate(_, _) =>
  }

  /**
   * In a run where no step moves high off the commit pointer's branch, high stays live across all prunings,
   * and the certificate a leader hands out as its justify is one Search finds.
   */
  lemma {:induction false} HighStaysLive(cfg: Config, run: seq<Replica>, events: seq<Event>, k: nat)
    requires IsRun(cfg, run, events) && k < |run|
    requires forall i :: 0 <= i < |events| ==> !Strays(run[i].chain, run[i + 1].chain)
    ensures var s := run[k].chain;
      && HighAnchored(s) && TreeOk(s.tree)
      && Search(s, HighRound(s), s.tree.hist[s.high].id) == Ok(s.high)
      && Names(cfg.codec, s.tree.hist[s.high].value, HighRound(s), s.tree.hist[s.high].id)
  {
    hide ReplicaOk, HighAnchored, Strays, Steppable, Step, Initial, TreeOk, HistoryOk, ChainOk;
    RunOk(cfg, run, events, k);
    OkFacts(cfg, run[k]);
    if k == 0 {
      InitialAnchored(cfg, run[0]);
    } else {
      HighStaysLive(cfg, run, events, k - 1);
      assert Steps(cfg, run[k - 1], events[k - 1], run[k]);
      RunOk(cfg, run, events, k - 1);
      StepAnchored(cfg, run[k - 1], events[k - 1]);
    }
    JustifyFound(cfg, run[k]);
  }

  lemma InitialAnchored(cfg: Config, s: Replica)
    requires Initial(cfg, s)
    ensures HighAnchored(s.chain)
  {
    hide Faithful;
  }

  lemma JustifyFound(cfg: Config, s: Replica)
    requires ReplicaOk(cfg, s) && HighAnchored(s.chain)
    ensures TreeOk(s.chain.tree) && s.chain.high < |s.chain.tree.hist|
    ensures Search(s.chain, HighRound(s.chain), s.chain.tree.hist[s.chain.high].id) == Ok(s.chain.high)
    ensures Names(cfg.codec, s.chain.tree.hist[s.chain.high].value, HighRound(s.chain), s.chain.tree.hist[s.chain.high].id)
  {
    hide ReplicaOk, ChainOk;
    OkFacts(cfg, s);
    assert ChainOk(cfg.codec, s.chain) by { ReplicaChain(cfg, s); }
    ChainFacts(cfg.codec, s.chain);
    LookUpExact(s.chain.tree, s.chain.tree.hist[s.chain.high].id, s.chain.high);
  }

  lemma ReplicaChain(cfg: Config, s: Replica)
    requires ReplicaOk(cfg, s)
    ensures ChainOk(cfg.codec, s.chain)
  {
  }
}
