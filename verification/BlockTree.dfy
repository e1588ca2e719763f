/** state/block_tree.go on the heap: four node pointers over a BasicTree, redirected in place. */
module BlockTrees {
  import opened Basics
  import opened BlockHistory
  import opened TreeSpec
  import opened BasicTrees
  import opened ChainSpec

  class BlockTree {
    const tree: BasicTree
    const codec: Codec
    var high: Node
    var generic: Node
    var locked: Node?
    var commit: Node?

    ghost function Abs(): Chain
      reads this, tree
    {
      Chain(tree.t, high.pos, generic.pos,
            if locked == null then None else Some(locked.pos),
            if commit == null then None else Some(commit.pos))
    }

    ghost predicate Pointers()
      reads this, tree
    {
      && tree.Has(high) && tree.Has(generic)
      && (locked != null ==> tree.Has(locked))
      && (commit != null ==> tree.Has(commit))
    }

    ghost predicate Valid()
      reads this, tree, tree.repr
    {
      tree.Valid() && Pointers() && Faithful(codec) && ChainOk(codec, Abs())
    }

    /** NewQCTree, for a start block the tree accepts and whose value names it. */
    constructor (round: int, id: Bytes, value: Bytes, codec: Codec)
      requires round >= 0 && id != [] && Faithful(codec) && Names(codec, value, round, id)
      ensures Valid() && Abs() == NewChain(round, id, value) && this.codec == codec
      ensures fresh(tree) && fresh(tree.repr)
    {
      var t := new BasicTree(round, id, value);
      tree, this.codec := t, codec;
      high, generic, locked, commit := t.root, t.root, null, null;
      new;
      NewTreeOk(round, id, value);
    }

    lemma ValidFacts()
      requires Valid()
      ensures tree.Valid() && tree.Shaped() && TreeOk(tree.t) && Faithful(codec) && ChainOk(codec, Abs()) && Pointers()
      ensures HistoryOk(tree.t.hist) && high.pos < |tree.t.hist| && high.value == tree.t.hist[high.pos].value
      ensures |tree.nodes| == |tree.t.hist| && Abs().tree == tree.t && Abs().high == high.pos && Abs().generic == generic.pos
    {
      assert tree.nodes[high.pos] == high;
    }

    /** redirectHighQCWithoutLock; false when the high certificate does not deserialize. */
    method Redirect(b: Node) returns (ok: bool)
      requires Valid() && tree.Has(b) && Live(tree.t, b.pos)
      modifies this
      ensures Valid()
      ensures match ChainSpec.Redirect(codec, old(Abs()), b.pos)
              case None => !ok && Abs() == old(Abs())
              case Some(u) => ok && Abs() == u
    {
      hide HistoryOk, TreeOk, Live, Above, ChainOk, Faithful, Names, BasicTree.Valid, BasicTree.Has, Advances, Shows;
      ghost var was := Abs();
      ValidFacts();
      UpFacts(tree, b);
      NodeShown(tree, b);
      RedirectKeeps(codec, was, b.pos);
      var parent := b.parent;
      var grand := if parent != null then parent.parent else null;
      var great := if grand != null then grand.parent else null;
      match codec.des(Some(high.value)) {
        case None =>
          ok := false;
        case Some(q) =>
          ok := true;
          if !(q.round > b.round || (q.id != b.id && q.round == b.round)) {
            Point(b, parent, grand, great);
          }
      }
    }

    /** Moves high to b, and each other pointer that b has an ancestor for. */
    method Point(b: Node, parent: Node?, grand: Node?, great: Node?)
      requires tree.Valid() && Faithful(codec) && Pointers() && tree.Has(b)
      requires (parent != null ==> tree.Has(parent)) && (grand != null ==> tree.Has(grand)) && (great != null ==> tree.Has(great))
      requires ChainOk(codec, Pointed(b, parent, grand, great))
      modifies this
      ensures Valid() && Abs() == old(Pointed(b, parent, grand, great))
    {
      hide HistoryOk, TreeOk, Live, ChainOk, Faithful, BasicTree.Valid, BasicTree.Has;
      ghost var next := Pointed(b, parent, grand, great);
      high := b;
      if parent != null {
        generic := parent;
      }
      if grand != null {
        locked := grand;
      }
      if great != null {
        commit := great;
      }
      assert Abs() == next;
    }

    ghost function Pointed(b: Node, parent: Node?, grand: Node?, great: Node?): Chain
      reads this, tree
    {
      Chain(tree.t, b.pos,
            if parent != null then parent.pos else generic.pos,
            if grand != null then Some(grand.pos) else Abs().locked,
            if great != null then Some(great.pos) else Abs().commit)
    }

    method ExecuteNInsert(qc: QC) returns (e: Option<ChainError>)
      requires Valid()
      modifies this, tree, tree.repr
      ensures Valid() && (Abs(), e) == ChainSpec.ExecuteNInsert(codec, old(Abs()), qc)
      ensures old(tree.nodes) <= tree.nodes && fresh(tree.repr - old(tree.repr))
    {
      hide HistoryOk, TreeOk, Live, Above, ValuesOk, Faithful, Names, BasicTree.Valid, BasicTree.Shaped, Advances, ChainOk, Insert,
        TreeSpec.LookUp;
      ghost var was := Abs();
      ValidFacts();
      var r := tree.Insert(qc.round, qc.id, Some(codec.ser(qc)), qc.parentID);
      match r {
        case Err(err) =>
          e := Some(InTree(err));
        case Ok(block) =>
          InsertKeepsChain(codec, was, qc);
          InsertEffect(was.tree, qc.round, qc.id, Some(codec.ser(qc)), qc.parentID);
          InsertedFacts(tree, block);
          var ok := Redirect(block.parent);
          e := if ok then None else Some(BadHigh);
      }
    }

    method ProcessCommit(key: Bytes)
      requires Valid()
      modifies this, tree, tree.repr
      ensures Valid() && Abs() == ChainSpec.ProcessCommit(old(Abs()), key)
      ensures tree.nodes == old(tree.nodes) && tree.repr == old(tree.repr)
    {
      hide HistoryOk, TreeOk, Live, ValuesOk, Faithful, Names, BasicTree.Valid, BasicTree.Shaped, Advances, ChainOk, TreeSpec.Reset;
      ghost var was := Abs();
      ValidFacts();
      ChainFacts(codec, was);
      CommitKeepsChain(codec, was, key);
      if commit == null {
        return;
      }
      NodeShown(tree, commit);
      if commit.id != key {
        return;
      }
      tree.Reset(commit);
    }

    /** The commit attempt of onReceiveProposal: three Parent pointers up from the justified block. */
    method CommitAbove(pnode: Node)
      requires Valid() && tree.Has(pnode) && Live(tree.t, pnode.pos)
      modifies this, tree, tree.repr
      ensures Valid() && tree.nodes == old(tree.nodes) && tree.repr == old(tree.repr)
      ensures old(HistoryOk(tree.t.hist) && (Abs().commit.Some? ==> Abs().commit.value < |tree.t.hist|))
      ensures Abs() == ChainSpec.CommitAbove(old(Abs()), pnode.pos)
    {
      hide HistoryOk, TreeOk, Live, Faithful, BasicTree.Valid, BasicTree.Shaped, ChainOk, Above, ChainSpec.ProcessCommit;
      ValidFacts();
      ChainFacts(codec, Abs());
      UpFacts(tree, pnode);
      if pnode.parent != null && pnode.parent.parent != null && pnode.parent.parent.parent != null {
        NodeShown(tree, pnode.parent.parent.parent);
        ProcessCommit(pnode.parent.parent.parent.id);
      }
    }

    method ProcessVote(qc: QC) returns (e: Option<ChainError>)
      requires Valid()
      modifies this
      ensures Valid() && (Abs(), e) == ChainSpec.ProcessVote(codec, old(Abs()), qc)
    {
      hide HistoryOk, TreeOk, Live, ValuesOk, Faithful, Names, BasicTree.Valid, BasicTree.Shaped, Advances, ChainOk, TreeSpec.LookUp,
        ChainSpec.Redirect;
      ValidFacts();
      FoundLive(tree.t, qc.id);
      var r := tree.LookUp(qc.id);
      match r {
        case Err(err) =>
          e := Some(InTree(err));
        case Ok(node) =>
          var ok := Redirect(node);
          e := if ok then None else Some(BadHigh);
      }
    }

    method Search(round: int, id: Bytes) returns (r: Result<Node, TreeError>)
      requires Valid()
      ensures TreeOk(tree.t)
      ensures match ChainSpec.Search(Abs(), round, id)
              case Ok(i) => r.Ok? && tree.Has(r.value) && r.value.pos == i
              case Err(e) => r == Err(e)
    {
      hide HistoryOk, TreeOk, Live, ValuesOk, Faithful, Names, BasicTree.Valid, BasicTree.Shaped, ChainOk, TreeSpec.LookUp;
      ValidFacts();
      FoundLive(tree.t, id);
      var found := tree.LookUp(id);
      match found {
        case Err(e) =>
          r := Err(e);
        case Ok(node) =>
          NodeShown(tree, node);
          r := if node.round != round then Err(WrongElement) else Ok(node);
      }
    }

    /** GetJustify; the high pointer is never nil. */
    method GetJustify() returns (value: Bytes)
      requires Valid()
      ensures Abs().high < |tree.t.hist| && value == tree.t.hist[Abs().high].value
    {
      ValidFacts();
      value := high.value;
    }
  }

  lemma RedirectKeeps(c: Codec, s: Chain, b: nat)
    requires ChainOk(c, s) && Live(s.tree, b)
    ensures match ChainSpec.Redirect(c, s, b) case None => false case Some(u) => ChainOk(c, u)
  {
    RedirectEffect(c, s, b);
  }

  lemma FoundLive(t: Tree, key: Bytes)
    requires TreeOk(t)
    ensures TreeSpec.LookUp(t, key).Some? ==>
      TreeSpec.LookUp(t, key).value < |t.hist| && Live(t, TreeSpec.LookUp(t, key).value)
  {
  }

  lemma NodeShown(tree: BasicTree, n: Node)
    requires tree.Valid() && tree.Has(n)
    ensures n.pos < |tree.t.hist| && Shows(n, tree.t.hist[n.pos])
    ensures n.round == tree.t.hist[n.pos].round && n.id == tree.t.hist[n.pos].id
  {
    assert tree.nodes[n.pos] == n;
  }

  lemma ParentFacts(tree: BasicTree, n: Node)
    requires tree.Valid() && tree.Has(n) && Live(tree.t, n.pos)
    ensures HistoryOk(tree.t.hist) && n.pos < |tree.t.hist| && Shows(n, tree.t.hist[n.pos])
    ensures n.parent == null <==> n.pos == tree.t.root
    ensures n.parent != null ==>
      tree.Has(n.parent) && Live(tree.t, n.parent.pos) && n.parent.pos == tree.t.hist[n.pos].parent
  {
    NodeShown(tree, n);
    assert Linked(tree.t, tree.nodes, n.pos, n.parent, n.sons);
    if n.pos != tree.t.root {
      LiveParent(tree.t, n.pos);
    }
  }

  /** Following Parent pointers on the heap is Above. */
  lemma UpFacts(tree: BasicTree, b: Node)
    requires tree.Valid() && tree.Has(b) && Live(tree.t, b.pos)
    ensures HistoryOk(tree.t.hist) && b.pos < |tree.t.hist| && Shows(b, tree.t.hist[b.pos])
    ensures b.parent == null <==> Above(tree.t, b.pos, 1).None?
    ensures b.parent != null ==> tree.Has(b.parent) && Above(tree.t, b.pos, 1) == Some(b.parent.pos)
    ensures b.parent == null || b.parent.parent == null <==> Above(tree.t, b.pos, 2).None?
    ensures b.parent != null && b.parent.parent != null ==>
      tree.Has(b.parent.parent) && Above(tree.t, b.pos, 2) == Some(b.parent.parent.pos)
    ensures b.parent == null || b.parent.parent == null || b.parent.parent.parent == null <==> Above(tree.t, b.pos, 3).None?
    ensures b.parent != null && b.parent.parent != null && b.parent.parent.parent != null ==>
      tree.Has(b.parent.parent.parent) && Above(tree.t, b.pos, 3) == Some(b.parent.parent.parent.pos)
  {
    hide HistoryOk, Live, BasicTree.Valid, TreeOk;
    ParentFacts(tree, b);
    if b.parent != null {
      ParentFacts(tree, b.parent);
      if b.parent.parent != null {
        ParentFacts(tree, b.parent.parent);
      }
    }
  }

  lemma InsertedFacts(tree: BasicTree, block: Node)
    requires tree.Valid() && tree.Has(block) && Live(tree.t, block.pos) && block.pos != tree.t.root
    ensures block.parent != null && tree.Has(block.parent) && Live(tree.t, block.parent.pos)
    ensures block.pos < |tree.t.hist| && block.parent.pos == tree.t.hist[block.pos].parent
  {
    ParentFacts(tree, block);
  }
}
