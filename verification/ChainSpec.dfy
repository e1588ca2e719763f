/**
 * state/block_tree.go as a value: the live tree and the four pointers into its history.
 * A pointer other than `commit` may be left on a pruned block.
 */
module ChainSpec {
  import opened Basics
  import opened BlockHistory
  import opened TreeSpec

  /** state/quorum_cert.go, without the signatures. */
  datatype QC = QC(round: int, id: Bytes, parentRound: int, parentID: Bytes, sender: PeerID)

  /** The certificate's serializer and the deserializer the block tree was built with. */
  datatype Codec = Codec(ser: QC -> Bytes, des: Option<Bytes> -> Option<QC>)

  /** Deserializing gives back the round and the identifier that were serialized. */
  ghost predicate Faithful(c: Codec) {
    forall q: QC :: Names(c, c.ser(q), q.round, q.id)
  }

  ghost predicate Names(c: Codec, value: Bytes, round: int, id: Bytes) {
    match c.des(Some(value))
    case Some(q) => q.round == round && q.id == id
    case None => false
  }

  datatype Chain = Chain(tree: Tree, high: nat, generic: nat, locked: Option<nat>, commit: Option<nat>)

  ghost predicate ValuesOk(c: Codec, h: seq<Block>) {
    forall i :: 0 <= i < |h| ==> Names(c, h[i].value, h[i].round, h[i].id)
  }

  /** Block a is live and three parent links below it there is a live block. */
  ghost predicate HeadsChain(t: Tree, a: nat)
    requires HistoryOk(t.hist)
  {
    Live(t, a) && exists x: nat :: Live(t, x) && Above(t, x, 3) == Some(a)
  }

  ghost predicate ChainOk(c: Codec, s: Chain) {
    && TreeOk(s.tree)
    && ValuesOk(c, s.tree.hist)
    && s.high < |s.tree.hist| && s.generic < |s.tree.hist|
    && (s.locked.Some? ==> s.locked.value < |s.tree.hist|)
    && (s.commit.Some? ==> HeadsChain(s.tree, s.commit.value))
  }

  ghost function HighRound(s: Chain): int {
    if s.high < |s.tree.hist| then s.tree.hist[s.high].round else -1
  }

  ghost function NewChain(round: int, id: Bytes, value: Bytes): Chain {
    Chain(NewTree(round, id, value), 0, 0, None, None)
  }

  /** redirectHighQCWithoutLock: None when the high certificate does not deserialize. */
  ghost function Redirect(c: Codec, s: Chain, b: nat): Option<Chain>
    requires TreeOk(s.tree) && s.high < |s.tree.hist| && Live(s.tree, b)
  {
    var t := s.tree;
    match c.des(Some(t.hist[s.high].value))
    case None => None
    case Some(q) =>
      if q.round > t.hist[b].round || (q.id != t.hist[b].id && q.round == t.hist[b].round) then Some(s)
      else Some(Chain(t, b,
                      if Above(t, b, 1).Some? then Above(t, b, 1).value else s.generic,
                      if Above(t, b, 2).Some? then Above(t, b, 2) else s.locked,
                      if Above(t, b, 3).Some? then Above(t, b, 3) else s.commit))
  }

  datatype ChainError = BadHigh | InTree(e: TreeError)

  /** ExecuteNInsert: the new chain, and the error if there was one. */
  ghost function ExecuteNInsert(c: Codec, s: Chain, q: QC): (Chain, Option<ChainError>)
    requires TreeOk(s.tree) && s.high < |s.tree.hist|
  {
    match Insert(s.tree, q.round, q.id, Some(c.ser(q)), q.parentID)
    case Err(e) => (s, Some(InTree(e)))
    case Ok(u) =>
      InsertEffect(s.tree, q.round, q.id, Some(c.ser(q)), q.parentID);
      var s1 := s.(tree := u);
      match Redirect(c, s1, u.hist[|s.tree.hist|].parent)
      case None => (s1, Some(BadHigh))
      case Some(s2) => (s2, None)
  }

  ghost function ProcessCommit(s: Chain, key: Bytes): Chain
    requires s.commit.Some? ==> s.commit.value < |s.tree.hist|
  {
    if s.commit.None? || s.tree.hist[s.commit.value].id != key then s
    else s.(tree := Reset(s.tree, s.commit.value))
  }

  /** The commit attempt after an insertion: the parent's great-grandparent, if the links reach it. */
  ghost function CommitAbove(c: Chain, parent: nat): Chain
    requires HistoryOk(c.tree.hist) && Live(c.tree, parent) && (c.commit.Some? ==> c.commit.value < |c.tree.hist|)
  {
    match Above(c.tree, parent, 3)
    case None => c
    case Some(g) => ProcessCommit(c, c.tree.hist[g].id)
  }

  /** ProcessVote: the node is queried by identifier only. */
  ghost function ProcessVote(c: Codec, s: Chain, q: QC): (Chain, Option<ChainError>)
    requires TreeOk(s.tree) && s.high < |s.tree.hist|
  {
    match LookUp(s.tree, q.id)
    case None => (s, Some(InTree(MissingError(q.id))))
    case Some(i) =>
      match Redirect(c, s, i)
      case None => (s, Some(BadHigh))
      case Some(s1) => (s1, None)
  }

  function MissingError(key: Bytes): TreeError {
    if key == [] then WrongElement else NotFound
  }

  ghost function Search(s: Chain, round: int, id: Bytes): Result<nat, TreeError>
    requires TreeOk(s.tree)
  {
    match LookUp(s.tree, id)
    case None => Err(MissingError(id))
    case Some(i) => if s.tree.hist[i].round != round then Err(WrongElement) else Ok(i)
  }

  // ---- What every operation keeps ----

  /** The high certificate only moves to a larger round; at the same round it keeps its identifier. */
  ghost predicate HighMoves(s: Chain, u: Chain)
    requires s.high < |s.tree.hist| && u.high < |u.tree.hist|
  {
    var a, b := s.tree.hist[s.high], u.tree.hist[u.high];
    a.round < b.round || (a.round == b.round && a.id == b.id)
  }

  /** The history grows, and the committed root moves only down the branch it is on. */
  ghost predicate RootMoves(s: Chain, u: Chain)
    requires s.tree.root < |s.tree.hist| && u.tree.root < |u.tree.hist|
  {
    && s.tree.hist <= u.tree.hist
    && Descends(u.tree.hist, u.tree.root, s.tree.root)
    && (u.tree.root != s.tree.root ==> u.tree.hist[s.tree.root].round < u.tree.hist[u.tree.root].round)
  }

  ghost predicate Advances(s: Chain, u: Chain) {
    && s.high < |s.tree.hist| && u.high < |u.tree.hist|
    && s.tree.root < |s.tree.hist| && u.tree.root < |u.tree.hist|
    && HighMoves(s, u) && RootMoves(s, u)
  }

  lemma AdvancesTrans(s: Chain, u: Chain, v: Chain)
    requires Advances(s, u) && Advances(u, v) && HistoryOk(v.tree.hist)
    ensures Advances(s, v)
  {
    var h := v.tree.hist;
    DescendsPrefix(u.tree.hist, h, u.tree.root, s.tree.root);
    DescendsTrans(h, v.tree.root, u.tree.root, s.tree.root);
    DescendsRounds(h, v.tree.root, s.tree.root);
  }

  lemma ChainFacts(c: Codec, s: Chain)
    requires ChainOk(c, s)
    ensures TreeOk(s.tree) && HistoryOk(s.tree.hist) && s.high < |s.tree.hist| && 0 <= HighRound(s)
    ensures Live(s.tree, s.tree.root)
    ensures s.commit.Some? ==> s.commit.value < |s.tree.hist| && Live(s.tree, s.commit.value)
    ensures Names(c, s.tree.hist[s.high].value, HighRound(s), s.tree.hist[s.high].id)
    ensures Advances(s, s)
  {
  }

  /** A redirect either changes nothing or points at b and at its live ancestors. */
  lemma RedirectEffect(c: Codec, s: Chain, b: nat)
    requires ChainOk(c, s) && Live(s.tree, b)
    ensures Redirect(c, s, b).Some?
    ensures var u := Redirect(c, s, b).value;
      && ChainOk(c, u) && u.tree == s.tree && Advances(s, u)
      && (u.high == b || u == s) && HighRound(u) == Max(HighRound(s), s.tree.hist[b].round)
      && (s.tree.hist[s.high].round < s.tree.hist[b].round ==> u.high == b)
      && (u != s && Above(s.tree, b, 3).Some? ==>
            u.high == b && Some(u.generic) == Above(s.tree, b, 1) && u.locked == Above(s.tree, b, 2) && u.commit == Above(s.tree, b, 3))
  {
    hide TreeOk, HistoryOk, Live, Descends, ValuesOk, HeadsChain, LookUp, Above;
    ChainFacts(c, s);
    AboveHeads(s.tree, b);
  }

  /** A block and its three ancestors are in the history, and the third heads a chain of three. */
  lemma AboveHeads(t: Tree, b: nat)
    requires TreeOk(t) && Live(t, b) && HistoryOk(t.hist)
    ensures b < |t.hist|
    ensures Above(t, b, 1).Some? ==> Above(t, b, 1).value < |t.hist|
    ensures Above(t, b, 2).Some? ==> Above(t, b, 2).value < |t.hist|
    ensures Above(t, b, 3).Some? ==> Above(t, b, 3).value < |t.hist| && HeadsChain(t, Above(t, b, 3).value)
    ensures Above(t, b, 3).Some? ==> Above(t, b, 1).Some? && Above(t, b, 2).Some?
  {
    if Above(t, b, 3).Some? {
      assert HeadsChain(t, Above(t, b, 3).value);
    }
  }

  lemma HeadsAfterInsert(t: Tree, u: Tree, p: nat, a: nat)
    requires TreeOk(t) && Extends(t, u, p) && HeadsChain(t, a)
    ensures HeadsChain(u, a)
  {
    var x: nat :| Live(t, x) && Above(t, x, 3) == Some(a);
    InsertAbove(t, u, p, x, 3);
    assert Live(u, x) && Above(u, x, 3) == Some(a);
  }

  lemma ValuesGrow(c: Codec, h: seq<Block>, g: seq<Block>)
    requires ValuesOk(c, h) && h <= g && |g| == |h| + 1 && Names(c, g[|h|].value, g[|h|].round, g[|h|].id)
    ensures ValuesOk(c, g)
  {
    hide Names;
  }

  lemma InsertKeepsChain(c: Codec, s: Chain, q: QC)
    requires ChainOk(c, s) && Faithful(c) && Insert(s.tree, q.round, q.id, Some(c.ser(q)), q.parentID).Ok?
    ensures var u := Insert(s.tree, q.round, q.id, Some(c.ser(q)), q.parentID).value;
      ChainOk(c, s.(tree := u)) && Advances(s, s.(tree := u))
  {
    hide HistoryOk, TreeOk, Live, Insert, LookUp, Names, HeadsChain, Descends, ValuesOk;
    var t := s.tree;
    var u := Insert(t, q.round, q.id, Some(c.ser(q)), q.parentID).value;
    InsertEffect(t, q.round, q.id, Some(c.ser(q)), q.parentID);
    assert Names(c, c.ser(q), q.round, q.id);
    ChainFacts(c, s);
    DescendsSelf(u.hist, t.root);
    ValuesGrow(c, t.hist, u.hist);
    if s.commit.Some? {
      HeadsAfterInsert(t, u, LookUp(t, q.parentID).value, s.commit.value);
    }
  }

  /** Resetting to the commit pointer keeps it the head of its chain of three. */
  lemma CommitKeepsChain(c: Codec, s: Chain, key: Bytes)
    requires ChainOk(c, s)
    ensures ChainOk(c, ProcessCommit(s, key)) && Advances(s, ProcessCommit(s, key))
  {
    var u := ProcessCommit(s, key);
    if u != s {
      var a := s.commit.value;
      var x: nat :| Live(s.tree, x) && Above(s.tree, x, 3) == Some(a);
      ResetAbove(s.tree, a, x, 3);
      ResetEffect(s.tree, a);
      assert Live(u.tree, x) && Above(u.tree, x, 3) == Some(a);
      DescendsRounds(s.tree.hist, a, s.tree.root);
    }
  }

  lemma VoteKeepsChain(c: Codec, s: Chain, q: QC)
    requires ChainOk(c, s)
    ensures ProcessVote(c, s, q).1.Some? <==> LookUp(s.tree, q.id).None?
    ensures ChainOk(c, ProcessVote(c, s, q).0) && Advances(s, ProcessVote(c, s, q).0)
    ensures ProcessVote(c, s, q).0.tree == s.tree
    ensures LookUp(s.tree, q.id).Some? ==>
      HighRound(ProcessVote(c, s, q).0) == Max(HighRound(s), s.tree.hist[LookUp(s.tree, q.id).value].round)
  {
    if LookUp(s.tree, q.id).Some? {
      RedirectEffect(c, s, LookUp(s.tree, q.id).value);
    }
  }

  lemma ExecuteKeepsChain(c: Codec, s: Chain, q: QC)
    requires ChainOk(c, s) && Faithful(c)
    ensures var (u, e) := ExecuteNInsert(c, s, q);
      && ChainOk(c, u) && Advances(s, u)
      && e != Some(BadHigh)
      && (e.Some? ==> u == s)
      && (e.None? ==>
            && LookUp(s.tree, q.parentID).Some?
            && Extends(s.tree, u.tree, LookUp(s.tree, q.parentID).value)
            && u.tree.hist[|s.tree.hist|] == Block(q.round, q.id, c.ser(q), q.parentID, LookUp(s.tree, q.parentID).value)
            && s.tree.hist[LookUp(s.tree, q.parentID).value].round < q.round
            && (HighRound(u) == HighRound(s) || HighRound(u) == s.tree.hist[LookUp(s.tree, q.parentID).value].round))
    ensures forall i: nat {:trigger Live(ExecuteNInsert(c, s, q).0.tree, i)} ::
              i < |s.tree.hist| ==> (Live(ExecuteNInsert(c, s, q).0.tree, i) <==> Live(s.tree, i))
  {
    if Insert(s.tree, q.round, q.id, Some(c.ser(q)), q.parentID).Ok? {
      var t := Insert(s.tree, q.round, q.id, Some(c.ser(q)), q.parentID).value;
      InsertEffect(s.tree, q.round, q.id, Some(c.ser(q)), q.parentID);
      InsertKeepsChain(c, s, q);
      var p := t.hist[|s.tree.hist|].parent;
      var s1 := s.(tree := t);
      RedirectEffect(c, s1, p);
      AdvancesTrans(s, s1, Redirect(c, s1, p).value);
    }
  }
}
