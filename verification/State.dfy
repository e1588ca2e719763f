/**
 * state/state.go and state/safetyrules.go on the heap. Each handler calls the mutating methods of its
 * components with the source's early returns, and is proved equal to its step in ReplicaSpec.
 * The queues and the ticker are sequences to which the handlers append.
 */
module States {
  import opened Basics
  import opened BlockHistory
  import opened TreeSpec
  import opened BasicTrees
  import opened ChainSpec
  import opened BlockTrees
  import opened TallySpec
  import opened Tallies
  import opened Election
  import opened TimeoutNames
  import opened ReplicaSpec
  import opened ReplicaSafety

  class State {
    const cfg: Config
    const tree: BlockTree
    const voteSet: VoteSet
    const timeoutSet: TimeoutSet
    const pacemaker: DefaultPacemaker
    const election: DefaultElection
    var senderQueue: seq<OutMsg>
    var ticker: seq<Tick>
    ghost var accepted: Ballots<Bytes>
    ghost var quorums: seq<Quorum<Bytes>>
    ghost var acceptedTimeouts: Ballots<int>
    ghost var timeoutQuorums: seq<Quorum<int>>

    ghost function Abs(): Replica
      reads this, tree, tree.tree, voteSet, timeoutSet, pacemaker, election
    {
      Replica(tree.Abs(), voteSet.Abs(), timeoutSet.Abs(), pacemaker.current, election.Abs(),
              senderQueue, ticker, accepted, quorums, acceptedTimeouts, timeoutQuorums)
    }

    ghost predicate Valid()
      reads this, tree, tree.tree, tree.tree.repr, voteSet, timeoutSet, pacemaker, election
    {
      tree.Valid() && tree.codec == cfg.codec && ReplicaOk(cfg, Abs())
    }

    /** NewState with the default components registered. */
    constructor (cfg: Config, round: int, index: int, id: Bytes, value: Bytes, validators: seq<PeerID>)
      requires Faithful(cfg.codec) && Names(cfg.codec, value, round, id)
      requires round >= 0 && id != [] && validators != []
      ensures Valid() && Abs() == NewReplica(round, index, id, value, validators) && this.cfg == cfg
    {
      hide ReplicaOk, BlockTree.Valid, Faithful, Names;
      this.cfg := cfg;
      tree := new BlockTree(round, id, value, cfg.codec);
      voteSet := new VoteSet(round);
      timeoutSet := new TimeoutSet(round, index);
      pacemaker := new DefaultPacemaker(round);
      election := new DefaultElection(round, validators);
      senderQueue, ticker := [], [];
      accepted, quorums, acceptedTimeouts, timeoutQuorums := {}, [], {}, [];
      new;
      NewReplicaOk(cfg, round, index, id, value, validators);
    }

    lemma ValidFacts()
      requires Valid()
      ensures tree.Valid() && tree.codec == cfg.codec && ReplicaOk(cfg, Abs()) && Steppable(cfg, Abs())
      ensures ChainOk(cfg.codec, tree.Abs()) && TreeOk(tree.tree.t) && tree.Abs().tree == tree.tree.t
      ensures election.validators != []
    {
      OkFacts(cfg, Abs());
    }

    /** DefaultSafetyRules.CheckProposal. Crashed stands for the nil Parent of a pruned root, and for a negative leader index. */
    method CheckProposal(n: QC, parent: QC) returns (out: Outcome)
      requires Valid()
      ensures TreeOk(Abs().chain.tree) && Abs().election.validators != []
      ensures out == ReplicaSpec.CheckProposal(Abs(), n, parent)
    {
      hide TreeOk, BlockTree.Valid, ChainOk, ReplicaOk, LeaderAt, Steppable, TreeSpec.LookUp;
      ValidFacts();
      var leader := election.Leader(n.round);
      match leader {
        case None =>
          return Crashed;
        case Some(name) =>
          if name != n.sender {
            return Rejected(BadSender);
          }
      }
      var found := tree.Search(n.round, n.id);
      match found {
        case Err(e) =>
          if e != NotFound {
            return Rejected(BadProposal);
          }
        case Ok(node) =>
          SearchedFacts(tree, n.round, n.id, node);
          if node.parentKey != parent.id {
            return Rejected(BadProposal);
          }
          if node.parent == null {
            return Crashed;
          }
          if node.parent.round != parent.round {
            return Rejected(BadProposal);
          }
      }
      var p := tree.Search(parent.round, parent.id);
      out := if p.Err? then Rejected(NoParent) else Done;
    }

    /** The sender scan of CheckVote and CheckTimeout. */
    method CheckSender(round: int, sender: PeerID) returns (valid: bool)
      ensures valid == ReplicaSpec.CheckSender(Abs(), round, sender)
    {
      var validators := election.Validators(round);
      valid := false;
      for i := 0 to |validators|
        invariant !valid && sender !in validators[..i]
      {
        if validators[i] == sender {
          return true;
        }
      }
      assert validators[..|validators|] == validators;
    }

    /** The components are well formed and share one codec. */
    ghost predicate Wired()
      reads this, tree, tree.tree, tree.tree.repr
    {
      tree.Valid() && tree.codec == cfg.codec
    }

    lemma WiredFacts()
      requires Wired()
      ensures TreeOk(tree.tree.t) && Faithful(cfg.codec) && ChainOk(cfg.codec, tree.Abs())
      ensures tree.Abs().tree == tree.tree.t && tree.Abs().high < |tree.tree.t.hist|
    {
      tree.ValidFacts();
    }

    method NewRoundEvent(nextID: Bytes)
      requires Wired() && election.validators != []
      modifies this`senderQueue, this`ticker
      ensures Wired() && tree.Abs().high < |tree.tree.t.hist|
      ensures Abs() == ReplicaSpec.NewRoundEvent(cfg, old(Abs()), nextID)
    {
      hide BlockTree.Valid, ChainOk, LeaderAt, BlockTree.Abs, TreeOk, Faithful;
      WiredFacts();
      var nextRound := pacemaker.GetCurrentRound();
      var nextLeader := election.Leader(nextRound);
      if nextLeader != Some(cfg.host) {
        ticker := ticker + [Tick(NextRound, nextRound, timeoutSet.latestTimeoutIndex)];
        return;
      }
      var justify := tree.GetJustify();
      senderQueue := senderQueue + [SendProposal(nextRound, nextID, justify)];
      ticker := ticker + [Tick(CollectVotes, nextRound, timeoutSet.latestTimeoutIndex)];
    }

    method OnReceiveProposal(p: ProposalMsg) returns (out: Outcome)
      requires Valid()
      modifies this, tree, tree.tree, tree.tree.repr, pacemaker
      ensures Valid() && Steppable(cfg, old(Abs())) && (Abs(), out) == StepProposal(cfg, old(Abs()), p)
    {
      hide TreeOk, BlockTree.Valid, ChainOk, ReplicaOk, Steppable, ReplicaSpec.CheckProposal, Adopt, Moves, ChainSpec.Search;
      ghost var was := Abs();
      ValidFacts();
      ProposalKeeps(cfg, was, p);
      match tree.codec.des(p.justify) {
        case None =>
          out := Rejected(BadJustify);
        case Some(parentQC) =>
          var found := tree.Search(parentQC.round, parentQC.id);
          match found {
            case Err(_) =>
              out := Rejected(NoParent);
            case Ok(pnode) =>
              var newQC := QC(p.round, p.id, parentQC.round, parentQC.id, p.peer);
              out := CheckProposal(newQC, parentQC);
              if out == Done {
                FoundParent(was.chain, parentQC.round, parentQC.id, pnode.pos);
                out := AdoptProposal(newQC, pnode);
              }
          }
      }
    }

    /** AdvanceRound, then ExecuteNInsert: both return before anything is sent. */
    method AdvanceAndInsert(round: int, qc: QC) returns (e: Option<ChainError>)
      requires Wired()
      modifies tree, tree.tree, tree.tree.repr, pacemaker
      ensures Wired() && fresh(tree.tree.repr - old(tree.tree.repr)) && old(tree.tree.nodes) <= tree.tree.nodes
      ensures old(ChainOk(cfg.codec, tree.Abs())) && Faithful(cfg.codec)
      ensures (tree.Abs(), e) == ExecuteNInsert(cfg.codec, old(tree.Abs()), qc)
      ensures Abs() == old(Abs()).(current := Max(old(pacemaker.current), round + 1), chain := tree.Abs())
    {
      hide TreeOk, BlockTree.Valid, ChainOk, Faithful, ChainSpec.ExecuteNInsert, BasicTree.Valid, BlockTree.Abs;
      WiredFacts();
      pacemaker.AdvanceRound(round);
      e := tree.ExecuteNInsert(qc);
    }

    /** The vote for an adopted proposal goes to the leader of the round after the current one. */
    method SendVoteFor(n: QC) returns (out: Outcome)
      requires election.validators != []
      modifies this`senderQueue
      ensures match LeaderAt(election.Abs(), pacemaker.current + 1)
              case None => out == Crashed && senderQueue == old(senderQueue)
              case Some(to) =>
                out == Done && senderQueue == old(senderQueue) + [SendVote(n.round, n.id, n.parentRound, n.parentID, to)]
    {
      hide LeaderAt;
      var current := pacemaker.GetCurrentRound();
      var nextLeader := election.Leader(current + 1);
      match nextLeader {
        case None =>
          out := Crashed;
        case Some(to) =>
          senderQueue := senderQueue + [SendVote(n.round, n.id, n.parentRound, n.parentID, to)];
          out := Done;
      }
    }

    lemma TreeShown()
      ensures tree.Abs().tree == tree.tree.t
    {
    }

    /** The tail of the handler: the block is in the tree, so its ancestors are committed and the vote is sent. */
    method CommitAndVote(newQC: QC, pnode: Node) returns (out: Outcome)
      requires Wired() && election.validators != []
      requires tree.tree.Has(pnode) && Live(tree.tree.t, pnode.pos)
      modifies this`senderQueue, tree, tree.tree, tree.tree.repr
      ensures Wired() && tree.tree.repr == old(tree.tree.repr)
      ensures HistoryOk(old(tree.Abs()).tree.hist)
      ensures old(tree.Abs().commit.Some? ==> tree.Abs().commit.value < |tree.tree.t.hist|)
      ensures var c := ChainSpec.CommitAbove(old(tree.Abs()), pnode.pos);
        (Abs(), out) ==
          match LeaderAt(election.Abs(), pacemaker.current + 1)
          case None => (old(Abs()).(chain := c), Crashed)
          case Some(to) =>
            (old(Abs()).(chain := c, sent := old(senderQueue) + [SendVote(newQC.round, newQC.id, newQC.parentRound, newQC.parentID, to)]),
             Done)
    {
      hide TreeOk, BlockTree.Valid, ChainOk, Live, ChainSpec.CommitAbove, LeaderAt, BasicTree.Valid, BlockTree.Abs, Faithful, HistoryOk;
      TreeShown();
      tree.CommitAbove(pnode);
      out := SendVoteFor(newQC);
    }

    /** The atomic operations of onReceiveProposal. */
    method AdoptProposal(newQC: QC, pnode: Node) returns (out: Outcome)
      requires Valid() && tree.tree.Has(pnode) && Live(tree.tree.t, pnode.pos)
      requires tree.tree.t.hist[pnode.pos].id == newQC.parentID && tree.tree.t.hist[pnode.pos].round == newQC.parentRound
      modifies this, tree, tree.tree, tree.tree.repr, pacemaker
      ensures Valid() && Steppable(cfg, old(Abs())) && (Abs(), out) == Adopt(cfg, old(Abs()), newQC, pnode.pos)
    {
      hide TreeOk, BlockTree.Valid, ChainOk, ReplicaOk, Steppable, Moves, Live, ChainSpec.ExecuteNInsert, ChainSpec.CommitAbove, LeaderAt,
        Advances, HighRound, Faithful, BasicTree.Valid, BlockTree.Abs;
      ghost var was := Abs();
      ValidFacts();
      AdoptKeeps(cfg, was, newQC, pnode.pos);
      AdoptChain(cfg.codec, was.chain, newQC, pnode.pos);
      var e := AdvanceAndInsert(newQC.parentRound, newQC);
      if e.Some? && e != Some(InTree(RepeatInsert)) {
        return Rejected(InsertFailed(e.value));
      }
      TreeShown();
      out := CommitAndVote(newQC, pnode);
    }

    // ---- Votes ----

    /** AddVote and HasTwoThirdsAny for a vote that passed CheckVote. */
    method CountVote(v: VoteMsg) returns (threshold: bool)
      modifies this`accepted, this`quorums, voteSet
      ensures var votes := TallySpec.AddVote(old(voteSet.Abs()), v.round, v.id, v.sender, ValidatorsAt(election.Abs(), v.round));
        var tally := TallyAt(votes.sets, v.round, v.id);
        && threshold == TwoThirds(tally)
        && voteSet.Abs() == CheckVotes(votes, v.round, v.id)
        && accepted == old(accepted) + {(v.round, v.id, v.sender)}
        && quorums ==
             if threshold then old(quorums) + [Quorum(v.round, v.id, tally.count, tally.validators)] else old(quorums)
    {
      hide TallySpec.AddVote, CheckVotes, TwoThirds, ValidatorsAt, TallyAt;
      var validators := election.Validators(v.round);
      voteSet.AddVote(v.round, v.id, v.sender, validators);
      ghost var tally := TallyAt(voteSet.roundVoteSets, v.round, v.id);
      threshold := voteSet.HasTwoThirdsAny(v.round, v.id);
      accepted := accepted + {(v.round, v.id, v.sender)};
      quorums := if threshold then quorums + [Quorum(v.round, v.id, tally.count, tally.validators)] else quorums;
    }

    /** The atomic operations of onReceiveVote. */
    method VoteQuorum(v: VoteMsg, nextID: Bytes) returns (out: Outcome)
      requires Wired() && election.validators != []
      modifies this`senderQueue, this`ticker, tree, pacemaker
      ensures Wired() && old(ChainOk(cfg.codec, tree.Abs())) && Faithful(cfg.codec)
      ensures var (c, e) := ProcessVote(cfg.codec, old(tree.Abs()), QC(v.round, v.id, v.parentRound, v.parentID, v.sender));
        && c.high < |c.tree.hist|
        && (Abs(), out) ==
             if e.Some? then (old(Abs()).(chain := c), Rejected(NoBlock))
             else (ReplicaSpec.NewRoundEvent(cfg, old(Abs()).(chain := c, current := Max(old(pacemaker.current), v.round + 1)), nextID),
                   Done)
    {
      hide TreeOk, BlockTree.Valid, ChainOk, Faithful, ChainSpec.ProcessVote, BasicTree.Valid, ReplicaSpec.NewRoundEvent, BlockTree.Abs;
      WiredFacts();
      var qc := QC(v.round, v.id, v.parentRound, v.parentID, v.sender);
      var e := tree.ProcessVote(qc);
      WiredFacts();
      if e.Some? {
        return Rejected(NoBlock);
      }
      pacemaker.AdvanceRound(qc.round);
      NewRoundEvent(nextID);
      out := Done;
    }

    method OnReceiveVote(v: VoteMsg, nextID: Bytes) returns (out: Outcome)
      requires Valid()
      modifies this, tree, voteSet, pacemaker
      ensures Valid() && Steppable(cfg, old(Abs())) && (Abs(), out) == StepVote(cfg, old(Abs()), v, nextID)
    {
      hide TreeOk, BlockTree.Valid, ChainOk, ReplicaOk, Steppable, Moves, ReplicaSpec.CheckSender, ChainSpec.Search, Faithful,
        ChainSpec.ProcessVote, TallySpec.AddVote, CheckVotes, TwoThirds, ValidatorsAt, TallyAt, ReplicaSpec.NewRoundEvent, BlockTree.Abs;
      ghost var was := Abs();
      ValidFacts();
      ghost var s3 := VoteKeeps(cfg, was, v, nextID);
      var valid := CheckSender(v.round, v.sender);
      if !valid {
        return Rejected(BadSender);
      }
      var found := tree.Search(v.round, v.id);
      if found.Err? {
        return Rejected(NoBlock);
      }
      var threshold := CountVote(v);
      if !threshold {
        return Done;
      }
      out := VoteQuorum(v, nextID);
    }

    // ---- Timeouts ----

    /** AddTimeout and HasTwoThirdsAny for a timeout that passed CheckTimeout. */
    method CountTimeout(t: TimeoutMsg) returns (threshold: bool)
      modifies this`acceptedTimeouts, timeoutSet
      ensures acceptedTimeouts == old(acceptedTimeouts) + {(t.round, t.index, t.sender)}
      ensures timeoutSet.Abs() ==
        TallySpec.AddTimeout(old(timeoutSet.Abs()), t.round, t.index, t.sender, ValidatorsAt(election.Abs(), t.round))
      ensures threshold == TwoThirds(TallyAt(timeoutSet.timeoutSets, t.round, t.index))
    {
      hide TallySpec.AddTimeout, TwoThirds, ValidatorsAt, TallyAt;
      var validators := election.Validators(t.round);
      timeoutSet.AddTimeout(t.round, t.index, t.sender, validators);
      acceptedTimeouts := acceptedTimeouts + {(t.round, t.index, t.sender)};
      threshold := timeoutSet.HasTwoThirdsAny(t.round, t.index);
    }

    /** ProcessTimeoutRound, then ExecuteNInsert. */
    method TimeoutAndInsert(qc: QC, ghost quorum: Quorum<int>) returns (e: Option<ChainError>)
      requires Wired()
      modifies this`timeoutQuorums, tree, tree.tree, tree.tree.repr, pacemaker
      ensures Wired() && old(ChainOk(cfg.codec, tree.Abs())) && Faithful(cfg.codec)
      ensures (tree.Abs(), e) == ExecuteNInsert(cfg.codec, old(tree.Abs()), qc)
      ensures Abs() == old(Abs()).(current := Max(old(pacemaker.current), qc.round + 1), chain := tree.Abs(),
                                   timeoutQuorums := old(timeoutQuorums) + [quorum])
    {
      hide TreeOk, BlockTree.Valid, ChainOk, Faithful, ChainSpec.ExecuteNInsert, BasicTree.Valid, BlockTree.Abs;
      WiredFacts();
      pacemaker.ProcessTimeoutRound(qc.round);
      timeoutQuorums := timeoutQuorums + [quorum];
      e := tree.ExecuteNInsert(qc);
    }

    /** ProcessVote for the inserted timeout block, then NewRoundEvent. */
    method VoteForTimeout(qc: QC, nextID: Bytes) returns (out: Outcome)
      requires Wired() && election.validators != []
      modifies this`senderQueue, this`ticker, tree
      ensures Wired() && old(ChainOk(cfg.codec, tree.Abs())) && Faithful(cfg.codec)
      ensures var (c, e) := ProcessVote(cfg.codec, old(tree.Abs()), qc);
        && c.high < |c.tree.hist|
        && (Abs(), out) ==
             if e.Some? then (old(Abs()).(chain := c), Rejected(NoBlock))
             else (ReplicaSpec.NewRoundEvent(cfg, old(Abs()).(chain := c), nextID), Done)
    {
      hide TreeOk, BlockTree.Valid, ChainOk, Faithful, ChainSpec.ProcessVote, BasicTree.Valid, ReplicaSpec.NewRoundEvent, BlockTree.Abs;
      WiredFacts();
      var e := tree.ProcessVote(qc);
      WiredFacts();
      if e.Some? {
        return Rejected(NoBlock);
      }
      NewRoundEvent(nextID);
      out := Done;
    }

    method OnReceiveTimeout(t: TimeoutMsg, nextID: Bytes) returns (out: Outcome)
      requires Valid()
      modifies this, tree, tree.tree, tree.tree.repr, timeoutSet, pacemaker
      ensures Valid() && Steppable(cfg, old(Abs())) && (Abs(), out) == StepTimeout(cfg, old(Abs()), t, nextID)
    {
      hide TreeOk, BlockTree.Valid, ChainOk, ReplicaOk, Steppable, Moves, ReplicaSpec.CheckSender, Faithful, ChainSpec.ProcessVote,
        ChainSpec.ExecuteNInsert, TallySpec.AddTimeout, TwoThirds, ValidatorsAt, TallyAt, ReplicaSpec.NewRoundEvent, BlockTree.Abs,
        TimeoutID, CompletesTimeout;
      ghost var was := Abs();
      ValidFacts();
      ghost var s3 := TimeoutKeeps(cfg, was, t, nextID);
      var tmo := QC(t.round, TimeoutID(t.round, t.index), t.parentRound, t.parentID, t.sender);
      var current := pacemaker.GetCurrentRound();
      if current > t.round {
        return Rejected(Stale);
      }
      var valid := CheckSender(t.round, t.sender);
      if !valid {
        return Rejected(BadSender);
      }
      var threshold := CountTimeout(t);
      if !threshold {
        return Done;
      }
      ghost var tally := TallyAt(timeoutSet.timeoutSets, t.round, t.index);
      var e := TimeoutAndInsert(tmo, Quorum(t.round, t.index, tally.count, tally.validators));
      if e.Some? {
        if e != Some(InTree(RepeatInsert)) {
          return Rejected(InsertFailed(e.value));
        }
        return Done;
      }
      out := VoteForTimeout(tmo, nextID);
    }

    method LocalTimeout(ti: Tick) returns (out: Outcome)
      requires Valid()
      modifies this, timeoutSet
      ensures Valid() && Steppable(cfg, old(Abs())) && (Abs(), out) == StepTick(cfg, old(Abs()), ti)
    {
      hide TreeOk, BlockTree.Valid, ChainOk, ReplicaOk, Steppable, Moves, ReplicaSpec.CheckSender, Faithful, Raise, BlockTree.Abs;
      ghost var was := Abs();
      ValidFacts();
      WiredFacts();
      TickKeeps(cfg, was, ti);
      var justify := tree.GetJustify();
      match tree.codec.des(Some(justify)) {
        case None =>
          out := Rejected(BadJustify);
        case Some(high) =>
          var current := pacemaker.GetCurrentRound();
          if current > ti.round {
            return Rejected(Stale);
          }
          var valid := CheckSender(ti.round, cfg.host);
          if !valid {
            return Rejected(BadSender);
          }
          timeoutSet.Reset(ti.round, 0);
          senderQueue := senderQueue + [SendTimeout(ti.round, high.round, high.id, timeoutSet.latestTimeoutIndex)];
          ticker := ticker + [Tick(NextRound, ti.round, timeoutSet.latestTimeoutIndex)];
          out := Done;
      }
    }

    /** A change of the validator schedule between messages. */
    method UpdateValidators(round: int, next: seq<PeerID>) returns (ok: bool)
      requires Valid() && next != []
      modifies election
      ensures Valid() && Steppable(cfg, old(Abs())) && Abs() == Step(cfg, old(Abs()), OnUpdate(round, next)).0
      ensures ok == (round > old(election.start))
    {
      hide TreeOk, BlockTree.Valid, ChainOk, ReplicaOk, Steppable, Moves, Faithful, BlockTree.Abs, Updated;
      ValidFacts();
      StepKeeps(cfg, Abs(), OnUpdate(round, next));
      ok := election.Update(round, next);
    }
  }

  lemma SearchedFacts(tree: BlockTree, round: int, id: Bytes, node: Node)
    requires tree.Valid() && TreeOk(tree.tree.t) && tree.tree.Has(node)
    requires ChainSpec.Search(tree.Abs(), round, id) == Ok(node.pos)
    ensures var t := tree.tree.t;
      && node.pos < |t.hist| && Shows(node, t.hist[node.pos])
      && (node.parent == null <==> node.pos == t.root)
      && (node.parent != null ==>
            t.hist[node.pos].parent < |t.hist| && node.parent.round == t.hist[t.hist[node.pos].parent].round)
  {
    ParentFacts(tree.tree, node);
    if node.parent != null {
      ParentFacts(tree.tree, node.parent);
    }
  }

  lemma FoundParent(s: Chain, round: int, id: Bytes, p: nat)
    requires TreeOk(s.tree) && ChainSpec.Search(s, round, id) == Ok(p)
    ensures p < |s.tree.hist| && Live(s.tree, p) && s.tree.hist[p].id == id && s.tree.hist[p].round == round
  {
  }
}
