/**
 * Identifiers of pruned leaves. `delete` leaves them in the index, so they are taken for good: no insertion
 * under such an identifier succeeds again, and a vote sent for it names no block in the tree.
 */
module ReservedKeys {
  import opened Basics
  import opened BlockHistory
  import opened TreeSpec
  import opened ChainSpec
  import opened TallySpec
  import opened Election
  import opened TimeoutNames
  import opened ReplicaSpec
  import opened ReplicaSafety
  import opened ReplicaSends
  import opened ReplicaRuns
  import opened HighAnchoring

  lemma ExecuteReserved(c: Codec, s: Chain, n: QC, id: Bytes)
    requires ChainOk(c, s) && Faithful(c) && Reserved(s.tree, id)
    ensures Reserved(ExecuteNInsert(c, s, n).0.tree, id)
  {
    ExecuteKeepsChain(c, s, n);
    if ExecuteNInsert(c, s, n).1.None? {
      InsertEffect(s.tree, n.round, n.id, Some(c.ser(n)), n.parentID);
    }
  }

  lemma CommitReserved(c: Codec, s: Chain, p: nat, id: Bytes)
    requires ChainOk(c, s) && Live(s.tree, p) && Reserved(s.tree, id)
    ensures Reserved(CommitAbove(s, p).tree, id)
  {
    hide ChainOk, TreeOk, HistoryOk, Live, Advances, CommitAbove;
    ChainFacts(c, s);
    CommitKeepsProposal(c, s, p);
  }

  lemma ProposalReserved(cfg: Config, s: Replica, p: ProposalMsg, id: Bytes)
    requires ReplicaOk(cfg, s) && Reserved(s.chain.tree, id)
    ensures Steppable(cfg, s) && Reserved(StepProposal(cfg, s, p).0.chain.tree, id)
  {
    hide ReplicaOk, HistoryOk, TreeOk, Live, ChainOk, ExecuteNInsert, CommitAbove, CheckProposal, Search, Faithful, LeaderAt, Reserved,
      Advances;
    OkFacts(cfg, s);
    var j := cfg.codec.des(p.justify);
    if j.Some? && Search(s.chain, j.value.round, j.value.id).Ok? {
      var parent := Search(s.chain, j.value.round, j.value.id).value;
      var n := QC(p.round, p.id, j.value.round, j.value.id, p.peer);
      SearchFound(s.chain, j.value.round, j.value.id, parent);
      AdoptChain(cfg.codec, s.chain, n, parent);
      ExecuteReserved(cfg.codec, s.chain, n, id);
      CommitReserved(cfg.codec, ExecuteNInsert(cfg.codec, s.chain, n).0, parent, id);
    }
  }

  lemma TimeoutReserved(cfg: Config, s: Replica, t: TimeoutMsg, nextID: Bytes, id: Bytes)
    requires ReplicaOk(cfg, s) && Reserved(s.chain.tree, id)
    ensures Steppable(cfg, s) && Reserved(StepTimeout(cfg, s, t, nextID).0.chain.tree, id)
  {
    hide ReplicaOk, HistoryOk, TreeOk, Live, ChainOk, ExecuteNInsert, ProcessVote, Faithful, AddTimeout, TwoThirds, TallyAt,
      ValidatorsAt, TimeoutID, LeaderAt, CheckSender, Reserved, Advances;
    OkFacts(cfg, s);
    var q := QC(t.round, TimeoutID(t.round, t.index), t.parentRound, t.parentID, t.sender);
    ExecuteReserved(cfg.codec, s.chain, q, id);
    ExecuteKeepsChain(cfg.codec, s.chain, q);
    VoteKeepsChain(cfg.codec, ExecuteNInsert(cfg.codec, s.chain, q).0, q);
  }

  lemma StepReserved(cfg: Config, s: Replica, e: Event, id: Bytes)
    requires ReplicaOk(cfg, s) && Admissible(e) && Reserved(s.chain.tree, id)
    ensures Steppable(cfg, s) && Reserved(Step(cfg, s, e).0.chain.tree, id)
  {
    hide ReplicaOk, StepProposal, StepVote, StepTimeout, TreeOk, ChainOk, Reserved;
    OkFacts(cfg, s);
    match e
    case OnProposal(p) => ProposalReserved(cfg, s, p, id);
    case OnVote(v, nextID) =>
      VoteCases(cfg, s, v, nextID);
      VoteKeepsChain(cfg.codec, s.chain, QC(v.round, v.id, v.parentRound, v.parentID, v.sender));
    case OnTimeout(t, nextID) => TimeoutReserved(cfg, s, t, nextID, id);
    case OnTick(_) =>
    case OnUpdate(_, _) =>
  }

  /** Once an identifier is reserved it is reserved in every later state, and inserting it is refused as a repeat. */
  lemma {:induction false} ReservedForGood(cfg: Config, run: seq<Replica>, events: seq<Event>, i: nat, k: nat, id: Bytes)
    requires IsRun(cfg, run, events) && i <= k < |run| && Reserved(run[i].chain.tree, id)
    ensures Reserved(run[k].chain.tree, id) && TreeOk(run[k].chain.tree)
    ensures forall round, value: Bytes, parentKey {:trigger Insert(run[k].chain.tree, round, id, Some(value), parentKey)} ::
              Insert(run[k].chain.tree, round, id, Some(value), parentKey) == Err(if round < 0 then WrongElement else RepeatInsert)
    decreases k
  {
    hide ReplicaOk, Step, Initial, Reserved, Steppable, TreeOk, HistoryOk, Insert;
    RunOk(cfg, run, events, k);
    OkFacts(cfg, run[k]);
    if i == k {
    } else {
      ReservedForGood(cfg, run, events, i, k - 1, id);
      RunOk(cfg, run, events, k - 1);
      assert Steps(cfg, run[k - 1], events[k - 1], run[k]);
      StepReserved(cfg, run[k - 1], events[k - 1], id);
    }
    forall round, value: Bytes, parentKey
      ensures Insert(run[k].chain.tree, round, id, Some(value), parentKey) == Err(if round < 0 then WrongElement else RepeatInsert)
    {
      InsertReserved(run[k].chain.tree, round, id, value, parentKey);
    }
  }

  lemma InsertReserved(t: Tree, round: int, id: Bytes, value: Bytes, parentKey: Bytes)
    requires TreeOk(t) && Reserved(t, id)
    ensures Insert(t, round, id, Some(value), parentKey) == Err(if round < 0 then WrongElement else RepeatInsert)
  {
    hide Live;
  }

  /** A reserved identifier names no live block. */
  lemma ReservedNamesNone(t: Tree, id: Bytes, b: nat)
    requires TreeOk(t) && Reserved(t, id) && Live(t, b)
    ensures b < |t.hist| && t.hist[b].id != id
  {
  }

  /**
   * A vote sent for a proposal names a block in the tree, this very proposal under its parent, if and only
   * if its identifier was not reserved when the proposal arrived.
   */
  lemma VoteNamesBlock(cfg: Config, s: Replica, p: ProposalMsg)
    requires ReplicaOk(cfg, s) && Steppable(cfg, s) && StepProposal(cfg, s, p).1 == Done
    ensures var u := StepProposal(cfg, s, p).0;
      && |u.sent| == |s.sent| + 1 && u.sent[|s.sent|].SendVote? && u.sent[|s.sent|].id == p.id
      && (!Reserved(s.chain.tree, p.id) ==> exists b: nat, q: nat :: Extending(u.chain.tree, b, q, p.round, p.id))
      && (Reserved(s.chain.tree, p.id) ==> forall b: nat :: Live(u.chain.tree, b) ==>
            b < |u.chain.tree.hist| && u.chain.tree.hist[b].id != p.id)
  {
    hide ReplicaOk, HistoryOk, TreeOk, Live, ChainOk, ExecuteNInsert, CommitAbove, CheckProposal, Search, Faithful, LeaderAt, Reserved,
      Advances, Extending;
    OkFacts(cfg, s);
    var j := cfg.codec.des(p.justify).value;
    var parent := Search(s.chain, j.round, j.id).value;
    var n := QC(p.round, p.id, j.round, j.id, p.peer);
    SearchFound(s.chain, j.round, j.id, parent);
    AdoptChain(cfg.codec, s.chain, n, parent);
    var u := StepProposal(cfg, s, p).0.chain;
    if Reserved(s.chain.tree, p.id) {
      ProposalReserved(cfg, s, p, p.id);
      ChainFacts(cfg.codec, u);
      forall b: nat | Live(u.tree, b) ensures b < |u.tree.hist| && u.tree.hist[b].id != p.id {
        ReservedNamesNone(u.tree, p.id, b);
      }
    } else {
      var c := ExecuteNInsert(cfg.codec, s.chain, n).0;
      var b := InsertedBlock(cfg.codec, s.chain, s, n, j, parent);
      CommitKeepsExtending(cfg.codec, c, b, parent, p.round, p.id);
    }
  }
}
