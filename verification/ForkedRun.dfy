/**
 * One run, with a single validator who always leads and is a quorum alone, in which a live fork is voted
 * high and then pruned, a vote is sent for a reserved identifier, and the replica aborts.
 */
module ForkedRun {
  import opened Basics
  import opened BlockHistory
  import opened TreeSpec
  import opened ChainSpec
  import opened TallySpec
  import opened Election
  import opened ReplicaSpec
  import opened ReplicaSafety
  import opened ReplicaSends
  import opened ReplicaRuns
  import opened HighLoss
  import opened ForkedTree

  const HOST: PeerID := []

  function Propose(c: Codec, round: int, id: Bytes, justify: QC): Event {
    OnProposal(ProposalMsg(round, id, Some(c.ser(justify)), HOST))
  }

  function Next(c: Codec, n: nat): Event
    requires 0 < n < 7
  {
    Propose(c, n, [n], Cert(PARENTS[n]))
  }

  function Vote(b: nat): Event
    requires b < 7
  {
    OnVote(VoteMsg(b, [b], PARENTS[b], [PARENTS[b]], HOST), [])
  }

  /**
   * Blocks 1 to 5 are proposed, 4 and 5 get their votes, and block 6 is proposed under 4, which commits
   * block 1. Then 5, whose key is reserved, and 0, whose key is free again, are proposed under 4; and the
   * committed block 1 is proposed once more, justified by the new block 0.
   */
  function Script(c: Codec): seq<Event> {
    [Next(c, 1), Next(c, 2), Next(c, 3), Next(c, 4), Next(c, 5), Vote(4), Vote(5), Next(c, 6),
     Propose(c, 7, [5], Cert(4)), Propose(c, 8, [0], Cert(4)), Propose(c, 1, [1], QC(8, [0], 4, [4], HOST))]
  }

  ghost function Start(c: Codec): Replica {
    NewReplica(0, 0, [0], c.ser(Cert(0)), [HOST])
  }

  /** The host is the only validator. */
  ghost predicate Alone(s: Replica) {
    s.election == NewSchedule(0, [HOST])
  }

  lemma AloneFacts(s: Replica, round: int)
    requires Alone(s)
    ensures s.election.validators != [] && LeaderAt(s.election, round) == Some(HOST)
    ensures round >= 0 ==> ValidatorsAt(s.election, round) == [HOST]
  {
    assert -round % 1 == 0 && round % 1 == 0;
  }

  /** A proposal of an identifier no live block has, justified by a live block, passes its guards. */
  lemma Passes(cfg: Config, s: Replica, round: int, id: Bytes, justify: QC, p: nat)
    requires ReplicaOk(cfg, s) && Alone(s) && id != []
    requires TreeOk(s.chain.tree) && LookUp(s.chain.tree, id) == None && LookUp(s.chain.tree, justify.id) == Some(p)
    requires p < |s.chain.tree.hist| && s.chain.tree.hist[p].round == justify.round
    ensures Steppable(cfg, s) && Live(s.chain.tree, p)
    ensures Step(cfg, s, Propose(cfg.codec, round, id, justify)) == Adopt(cfg, s, QC(round, id, justify.round, justify.id, HOST), p)
  {
    hide ReplicaOk, TreeOk, HistoryOk, Live, ChainOk, Adopt, LookUp, LeaderAt;
    OkFacts(cfg, s);
    AloneFacts(s, round);
    assert Names(cfg.codec, cfg.codec.ser(justify), justify.round, justify.id) by { FaithfulCodec(cfg, s); }
    LookUpExact(s.chain.tree, justify.id, p);
  }

  lemma FaithfulCodec(cfg: Config, s: Replica)
    requires ReplicaOk(cfg, s)
    ensures Faithful(cfg.codec) && ChainOk(cfg.codec, s.chain)
  {
  }

  /** What adopting a proposal leaves, when the block is inserted or its identifier is taken. */
  lemma Adopted(cfg: Config, s: Replica, n: QC, p: nat)
    requires ReplicaOk(cfg, s) && Alone(s) && Live(s.chain.tree, p) && p < |s.chain.tree.hist|
    requires s.chain.tree.hist[p].id == n.parentID && s.chain.tree.hist[p].round == n.parentRound
    requires TreeOk(s.chain.tree) && s.chain.high < |s.chain.tree.hist|
    requires var e := ExecuteNInsert(cfg.codec, s.chain, n).1; e.None? || e == Some(InTree(RepeatInsert))
    ensures Steppable(cfg, s)
    ensures var c := ExecuteNInsert(cfg.codec, s.chain, n).0;
      var (u, o) := Adopt(cfg, s, n, p);
      && ChainOk(cfg.codec, c) && Live(c.tree, p)
      && u.chain == CommitAbove(c, p) && u.election == s.election && u.votes == s.votes && o == Done
      && u.sent == s.sent + [SendVote(n.round, n.id, n.parentRound, n.parentID, HOST)]
  {
    hide ReplicaOk, TreeOk, HistoryOk, Live, ChainOk, LookUp, LeaderAt, ExecuteNInsert, CommitAbove, Advances, HighRound, Faithful,
      Descends, Alone;
    OkFacts(cfg, s);
    FaithfulCodec(cfg, s);
    AdoptChain(cfg.codec, s.chain, n, p);
    AloneFacts(s, Max(s.current, n.parentRound + 1) + 1);
  }

  /** Proposing the next block of the table. */
  lemma Grow(cfg: Config, s: Replica, n: nat)
    requires ReplicaOk(cfg, s) && Alone(s) && 0 < n < 7 && s.chain.tree == Grown(cfg.codec, n) && s.chain.high < n
    ensures Steppable(cfg, s)
    ensures var (u, o) := Step(cfg, s, Next(cfg.codec, n));
      var c := Toward(s.chain.(tree := Grown(cfg.codec, n + 1)), PARENTS[n]);
      && ChainOk(cfg.codec, c) && Live(c.tree, PARENTS[n])
      && u.chain == CommitAbove(c, PARENTS[n]) && Alone(u) && u.votes == s.votes
  {
    hide ReplicaOk, TreeOk, HistoryOk, Live, ChainOk, LookUp, Adopt, ExecuteNInsert, CommitAbove, Grown, Toward, Step, Up;
    var p := PARENTS[n];
    ParentBefore(n);
    FaithfulCodec(cfg, s);
    GrownFacts(cfg.codec, n);
    Fresh(cfg.codec, n);
    Found(cfg.codec, n, p);
    Passes(cfg, s, n, [n], Cert(p), p);
    ExecuteGrown(cfg.codec, n, s.chain);
    Adopted(cfg, s, Cert(n), p);
  }

  lemma Fresh(c: Codec, n: nat)
    requires 0 < n < 7
    ensures TreeOk(Grown(c, n)) && LookUp(Grown(c, n), [n]) == None
  {
    GrownFacts(c, n);
    KeysExact(n, [n]);
  }

  lemma Found(c: Codec, n: nat, i: nat)
    requires i < n <= 7
    ensures TreeOk(Grown(c, n)) && |Grown(c, n).hist| == n && Grown(c, n).hist[i].id == [i] && Grown(c, n).hist[i].round == i
    ensures LookUp(Grown(c, n), [i]) == Some(i)
  {
    GrownFacts(c, n);
    LookUpExact(Grown(c, n), [i], i);
  }

  /** While the root is block 0 a commit above p changes nothing unless p is four deep. */
  lemma Quiet(c: Codec, n: nat, s: Chain, p: nat)
    requires p < n <= 7 && s.tree == Grown(c, n) && ChainOk(c, s) && Live(s.tree, p)
    requires Up(p, 3) in {None, Some(0)}
    ensures CommitAbove(s, p) == s
  {
    hide TreeOk, HistoryOk, Live, ChainOk, Grown, Up;
    ChainFacts(c, s);
    GrownFacts(c, n);
    AboveIsUp(c, n, p, 3);
    if s.commit.Some? && Above(s.tree, p, 3).Some? && s.tree.hist[s.commit.value].id == s.tree.hist[0].id {
      SameIdentifier(s.tree, s.commit.value, 0);
    }
  }

  /** The host's vote for block b completes a quorum. */
  lemma Voted(cfg: Config, s: Replica, b: nat)
    requires ReplicaOk(cfg, s) && Alone(s) && 0 < b < 6 && s.chain.tree == Grown(cfg.codec, 6) && s.chain.high < 6
    requires TallyAt(s.votes.sets, b, [b]) == EMPTY
    ensures Steppable(cfg, s)
    ensures var u := Step(cfg, s, Vote(b)).0;
      && u.chain == Toward(s.chain, b) && Alone(u)
      && (forall r, i :: r > b - CHAINED_STEP && (r, i) != (b, [b]) ==> TallyAt(u.votes.sets, r, i) == TallyAt(s.votes.sets, r, i))
  {
    hide ReplicaOk, TreeOk, HistoryOk, Live, ChainOk, LookUp, ProcessVote, Grown, Toward, AddVote, CheckVotes, ValidatorsAt,
      LeaderAt, TwoThirds;
    FaithfulCodec(cfg, s);
    OkFacts(cfg, s);
    AloneFacts(s, b);
    Found(cfg.codec, 6, b);
    VoteGrown(cfg.codec, 6, s.chain, b);
    AloneCounts(s.votes, b, [b]);
  }

  lemma AloneCounts(v: VoteState, round: int, id: Bytes)
    requires TallyAt(v.sets, round, id) == EMPTY
    ensures var votes := AddVote(v, round, id, HOST, [HOST]);
      && TwoThirds(TallyAt(votes.sets, round, id))
      && (forall r, i :: r > round - CHAINED_STEP && (r, i) != (round, id) ==>
            TallyAt(CheckVotes(votes, round, id).sets, r, i) == TallyAt(v.sets, r, i))
  {
    var votes := AddVote(v, round, id, HOST, [HOST]);
    assert Elements([HOST]) == {HOST};
    assert TallyAt(votes.sets, round, id) == Tally({HOST}, {HOST});
    assert {HOST} * {HOST} == {HOST};
  }

  // ---- The states of the run ----

  /** The block tree after k events, up to the vote for block 5. */
  ghost function Stage(c: Codec, k: nat): Chain
    requires k <= 7
  {
    if k <= 1 then Chain(Grown(c, k + 1), 0, 0, None, None)
    else if k == 2 then Chain(Grown(c, 3), 1, 0, None, None)
    else if k == 3 then Chain(Grown(c, 4), 2, 1, Some(0), None)
    else if k == 4 then Chain(Grown(c, 5), 3, 2, Some(1), Some(0))
    else if k == 5 then Chain(Grown(c, 6), 3, 2, Some(1), Some(0))
    else if k == 6 then Chain(Grown(c, 6), 4, 3, Some(2), Some(1))
    else Chain(Grown(c, 6), 5, 0, Some(2), Some(1))
  }

  ghost predicate IsScript(cfg: Config, run: seq<Replica>) {
    IsRun(cfg, run, Script(cfg.codec)) && run[0] == Start(cfg.codec)
  }

  lemma StageNext(c: Codec, k: nat)
    requires 0 < k <= 7
    ensures k <= 5 ==> Stage(c, k) == Toward(Stage(c, k - 1).(tree := Grown(c, k + 1)), PARENTS[k])
    ensures k <= 5 ==> PARENTS[k] < k && Up(PARENTS[k], 3) in {None, Some(0)}
    ensures k > 5 ==> Stage(c, k) == Toward(Stage(c, k - 1), k - 2)
  {
    hide Grown, Up;
    Parents();
  }

  lemma {:induction false} Stages(cfg: Config, run: seq<Replica>, k: nat)
    requires IsScript(cfg, run) && k <= 7
    ensures run[k].chain == Stage(cfg.codec, k) && Alone(run[k])
    ensures k <= 5 ==> TallyAt(run[k].votes.sets, 4, [4]) == EMPTY
    ensures k <= 6 ==> TallyAt(run[k].votes.sets, 5, [5]) == EMPTY
  {
    hide ReplicaOk, Step, Toward, Grown, ChainOk, Initial, Steppable, Live, CommitAbove;
    var c := cfg.codec;
    if k == 0 {
      First(c);
    } else {
      Stages(cfg, run, k - 1);
      RunOk(cfg, run, Script(c), k - 1);
      assert Steps(cfg, run[k - 1], Script(c)[k - 1], run[k]);
      StageNext(c, k);
      if k <= 5 {
        assert Script(c)[k - 1] == Next(c, k) by { Events(c, k); }
        Grow(cfg, run[k - 1], k);
        Quiet(c, k + 1, Stage(c, k), PARENTS[k]);
      } else {
        Voted(cfg, run[k - 1], k - 2);
      }
    }
  }

  lemma Events(c: Codec, k: nat)
    requires 0 < k <= 5
    ensures Script(c)[k - 1] == Next(c, k)
  {
    assert k in {1, 2, 3, 4, 5};
  }

  /** The tree after the commit of block 1. */
  ghost function Cut(c: Codec): Chain {
    Pruned(c);
    Chain(Reset(Grown(c, 7), 1), 5, 0, Some(2), Some(1))
  }

  lemma CutOff(cfg: Config, run: seq<Replica>)
    requires IsScript(cfg, run)
    ensures Live(run[7].chain.tree, 5) && run[7].chain.high == 5
    ensures run[8].chain == Cut(cfg.codec) && Alone(run[8])
  {
    hide ReplicaOk, Step, Grown, ChainOk, Initial, Steppable, Live, Up, Reset, HistoryOk, TreeOk;
    var c := cfg.codec;
    Stages(cfg, run, 7);
    RunOk(cfg, run, Script(c), 7);
    assert Steps(cfg, run[7], Script(c)[7], run[8]);
    GrownFacts(c, 6);
    GrownFacts(c, 7);
    Parents();
    Grow(cfg, run[7], 6);
    AboveIsUp(c, 7, 4, 3);
  }

  /** Above block 4 the commit is due at the root, so it changes nothing. */
  lemma RootStays(s: Chain)
    requires TreeOk(s.tree) && HistoryOk(s.tree.hist) && Live(s.tree, 4) && Above(s.tree, 4, 3) == Some(1)
    requires s.commit == Some(1) && s.tree.root == 1 && 1 < |s.tree.hist|
    ensures CommitAbove(s, 4) == s
  {
  }

  /** Event 8: block 5 is proposed again. Its key is still there, so nothing is inserted, and the vote is sent. */
  lemma Repeated(cfg: Config, run: seq<Replica>)
    requires IsScript(cfg, run)
    ensures Reserved(run[8].chain.tree, [5])
    ensures run[9].chain == Cut(cfg.codec) && Alone(run[9])
    ensures run[9].sent == run[8].sent + [SendVote(7, [5], 4, [4], HOST)]
  {
    hide ReplicaOk, Step, Grown, ChainOk, Initial, Steppable, Live, Up, Reset, HistoryOk, TreeOk, Adopt, LookUp, Insert, CommitAbove,
      Redirect;
    var c := cfg.codec;
    var s := run[8];
    CutOff(cfg, run);
    RunOk(cfg, run, Script(c), 8);
    assert Steps(cfg, s, Script(c)[8], run[9]);
    Pruned(c);
    Named(c, 4);
    RootStays(s.chain);
    Passes(cfg, s, 7, [5], Cert(4), 4);
    var q := QC(7, [5], 4, [4], HOST);
    InsertTaken(s.chain.tree, q, c.ser(q), 4);
    FaithfulCodec(cfg, s);
    ExecuteErrors(c, s.chain, q);
    Adopted(cfg, s, q, 4);
  }

  /** Event 9: the identifier of block 0, whose key is gone, is proposed again and inserted. */
  lemma Reused(cfg: Config, run: seq<Replica>)
    requires IsScript(cfg, run)
    ensures var t := run[10].chain.tree;
      && TreeOk(t) && t.root == 1 && |t.hist| == 8 && Alone(run[10])
      && LookUp(t, [0]) == Some(7) && t.hist[7].round == 8 && LookUp(t, [1]) == Some(1)
      && t.hist[1].round == 1 && t.hist[1].parentKey == [0]
  {
    hide ReplicaOk, Step, Grown, ChainOk, Initial, Steppable, Live, Up, Reset, HistoryOk, TreeOk, Adopt, LookUp, Insert, CommitAbove,
      Redirect, Faithful;
    var c := cfg.codec;
    var s := run[9];
    Repeated(cfg, run);
    RunOk(cfg, run, Script(c), 9);
    assert Steps(cfg, s, Script(c)[9], run[10]);
    Pruned(c);
    Named(c, 4);
    Named(c, 1);
    Named(c, 5);
    Passes(cfg, s, 8, [0], Cert(4), 4);
    var q := QC(8, [0], 4, [4], HOST);
    InsertTaken(s.chain.tree, q, c.ser(q), 4);
    FaithfulCodec(cfg, s);
    InsertedBeside(c, s.chain, q);
    Adopted(cfg, s, q, 4);
    LookUpExact(s.chain.tree, [1], 1);
    LookUpExact(run[10].chain.tree, [1], 1);
    LookUpExact(run[10].chain.tree, [0], 7);
  }

  lemma InsertedBeside(c: Codec, s: Chain, q: QC)
    requires ChainOk(c, s) && Faithful(c) && s == Cut(c) && q == QC(8, [0], 4, [4], HOST)
    requires Insert(s.tree, 8, [0], Some(c.ser(q)), [4]).Ok?
    ensures var t := Insert(s.tree, 8, [0], Some(c.ser(q)), [4]).value;
      && TreeOk(t) && HistoryOk(t.hist) && Extends(s.tree, t, 4) && |t.hist| == 8 && t.hist[7] == Block(8, [0], c.ser(q), [4], 4)
      && Live(t, 4) && ChainOk(c, s.(tree := t))
      && ExecuteNInsert(c, s, q) == (s.(tree := t), None) && CommitAbove(s.(tree := t), 4) == s.(tree := t)
  {
    hide Grown, ChainOk, Live, Up, Reset, HistoryOk, TreeOk, LookUp, Insert, CommitAbove, Redirect, Faithful, Above, Extends;
    Pruned(c);
    Named(c, 4);
    Named(c, 5);
    InsertEffect(s.tree, 8, [0], Some(c.ser(q)), [4]);
    InsertKeepsChain(c, s, q);
    var t := Insert(s.tree, 8, [0], Some(c.ser(q)), [4]).value;
    var u := s.(tree := t);
    ChainFacts(c, u);
    ExtendsFacts(s.tree, t, 4);
    InsertAbove(s.tree, t, 4, 4, 3);
    RedirectExact(c, u, 4);
    RootStays(u);
  }

  lemma ExtendsFacts(t: Tree, u: Tree, p: nat)
    requires Extends(t, u, p) && Live(t, p) && p < |t.hist|
    ensures Live(u, p) && u.root == t.root && t.hist <= u.hist && |u.hist| == |t.hist| + 1 && u.hist[|t.hist|].parent == p
    ensures Live(u, |t.hist|)
  {
  }

  // ---- What the run shows ----

  /** A vote quorum moves high to a live fork, and the next proposal's commit prunes it: the justify names a block nobody finds. */
  lemma HighCanBeLost(cfg: Config, run: seq<Replica>)
    requires IsScript(cfg, run)
    ensures Live(run[7].chain.tree, run[7].chain.high) && Loses(cfg, run[7], Script(cfg.codec)[7])
    ensures run[8].chain.high == run[7].chain.high && !Live(run[8].chain.tree, run[8].chain.high)
    ensures TreeOk(run[8].chain.tree) && Search(run[8].chain, 5, [5]) == Err(NotFound)
  {
    hide ReplicaOk, Step, Grown, ChainOk, Initial, Steppable, Live, Reset, HistoryOk, TreeOk, LookUp, Loses;
    var c := cfg.codec;
    CutOff(cfg, run);
    Pruned(c);
    RunOk(cfg, run, Script(c), 7);
    assert Steps(cfg, run[7], Script(c)[7], run[8]);
    StepLoses(cfg, run[7], Script(c)[7]);
  }

  /** A vote is really sent for a reserved identifier, and no live block has it. */
  lemma ReservedVoteIsSent(cfg: Config, run: seq<Replica>)
    requires IsScript(cfg, run)
    ensures Reserved(run[8].chain.tree, [5])
    ensures run[9].sent == run[8].sent + [SendVote(7, [5], 4, [4], HOST)]
    ensures forall b: nat :: Live(run[9].chain.tree, b) ==> b < |run[9].chain.tree.hist| && run[9].chain.tree.hist[b].id != [5]
  {
    hide ReplicaOk, Step, Grown, ChainOk, Initial, Steppable, Live, Reset, HistoryOk, TreeOk, LookUp;
    Repeated(cfg, run);
    CutOff(cfg, run);
    Pruned(cfg.codec);
    forall b: nat | Live(run[9].chain.tree, b) ensures b < |run[9].chain.tree.hist| && run[9].chain.tree.hist[b].id != [5] {
      LiveInside(run[9].chain.tree, b);
      LookUpExact(run[9].chain.tree, [5], b);
    }
  }

  /** The committed root, proposed again on a new block under its parent's old identifier, aborts the replica. */
  lemma PrunedRootAborts(cfg: Config, run: seq<Replica>)
    requires IsScript(cfg, run)
    ensures Steppable(cfg, run[10]) && Step(cfg, run[10], Script(cfg.codec)[10]).1 == Crashed
  {
    hide ReplicaOk, Grown, ChainOk, Initial, Steppable, Live, Reset, HistoryOk, TreeOk, LookUp, LeaderAt, Adopt, Faithful;
    var c := cfg.codec;
    Reused(cfg, run);
    RunOk(cfg, run, Script(c), 10);
    OkFacts(cfg, run[10]);
    FaithfulCodec(cfg, run[10]);
    AloneFacts(run[10], 1);
    var j := QC(8, [0], 4, [4], HOST);
    assert Names(c, c.ser(j), 8, [0]) by { NamesOf(c, j); }
  }

  lemma NamesOf(c: Codec, q: QC)
    requires Faithful(c)
    ensures Names(c, c.ser(q), q.round, q.id)
  {
  }

  /** The run exists, for every serializer that is read back. */
  lemma ScriptRuns(c: Codec) returns (run: seq<Replica>)
    requires Faithful(c)
    ensures IsScript(Config(c, HOST), run)
  {
    var cfg := Config(c, HOST);
    NamesOf(c, Cert(0));
    hide Faithful, Step;
    assert Initial(cfg, Start(c));
    run := RunFrom(cfg, Start(c), Script(c));
  }

  /** With two validators, a proposal for round -1 asks for a validator at a negative index. */
  lemma NegativeLeaderAborts(c: Codec) returns (s: Replica, e: Event)
    requires Faithful(c)
    ensures Initial(Config(c, HOST), s) && Admissible(e)
    ensures Steppable(Config(c, HOST), s) && Step(Config(c, HOST), s, e).1 == Crashed
  {
    var cfg := Config(c, HOST);
    NamesOf(c, Cert(0));
    hide Faithful;
    s := NewReplica(0, 0, [0], c.ser(Cert(0)), [HOST, [1]]);
    e := Propose(c, -1, [1], Cert(0));
    assert Initial(cfg, s);
    InitialOk(cfg, s);
    OkFacts(cfg, s);
    assert -(-1) % 2 == 1;
  }
}
