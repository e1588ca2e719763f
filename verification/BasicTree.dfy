/**
 * state/bt/basic_tree.go on the heap: nodes with Parent and Sons pointers, a root and an index,
 * each method proved to refine its TreeSpec counterpart.
 */
module BasicTrees {
  import opened Basics
  import opened BlockHistory
  import opened TreeSpec

  class Node {
    const round: int
    const id: Bytes
    const value: Bytes
    const parentKey: Bytes
    var parent: Node?
    var sons: seq<Node>
    ghost const pos: nat  // position in the history

    constructor (round: int, id: Bytes, value: Bytes, parentKey: Bytes, parent: Node?, ghost pos: nat)
      ensures this.round == round && this.id == id && this.value == value && this.parentKey == parentKey
      ensures this.parent == parent && sons == [] && this.pos == pos
    {
      this.round, this.id, this.value, this.parentKey := round, id, value, parentKey;
      this.parent, this.sons, this.pos := parent, [], pos;
    }

  }

  ghost predicate Shows(n: Node, b: Block) {
    n.round == b.round && n.id == b.id && n.value == b.value && n.parentKey == b.parentKey
  }

  ghost predicate Shown(h: seq<Block>, nodes: seq<Node>) {
    && |nodes| == |h|
    && forall i {:trigger nodes[i]} :: 0 <= i < |nodes| ==> nodes[i].pos == i && Shows(nodes[i], h[i])
  }

  /** The index holds the nodes that the abstract index names. */
  ghost predicate Indexed(t: Tree, keySet: map<Bytes, Node>, nodes: seq<Node>) {
    && keySet.Keys == t.keys.Keys
    && forall k :: k in keySet ==> t.keys[k] < |nodes| && keySet[k] == nodes[t.keys[k]]
  }

  lemma IndexedAfter(t: Tree, keySet: map<Bytes, Node>, nodes: seq<Node>, gone: set<Bytes>)
    requires Indexed(t, keySet, nodes)
    ensures Indexed(t.(keys := t.keys - gone), keySet - gone, nodes)
  {
  }

  /** The heap's Sons of block i: the nodes at the positions of its kids, in order. */
  ghost predicate Lists(sons: seq<Node>, nodes: seq<Node>, kids: seq<nat>) {
    && |sons| == |kids|
    && forall j :: 0 <= j < |kids| ==> kids[j] < |nodes| && sons[j] == nodes[kids[j]]
  }

  /** The Parent and Sons pointers of live block i. A pruned node promises nothing about its pointers. */
  ghost predicate Linked(t: Tree, nodes: seq<Node>, i: nat, parent: Node?, sons: seq<Node>) {
    && i < |t.hist|
    && (i == t.root ==> parent == null)
    && (i != t.root ==> t.hist[i].parent < |nodes| && parent == nodes[t.hist[i].parent])
    && Lists(sons, nodes, Kids(t.hist, i, |t.hist|))
  }

  lemma LinkedAfterInsert(t: Tree, u: Tree, p: nat, nodes: seq<Node>, inserted: Node, i: nat, parent: Node?, sons: seq<Node>)
    requires Extends(t, u, p) && |nodes| == |t.hist| && p < |nodes| && t.root < |nodes| && HistoryOk(u.hist)
    requires if i < |nodes| then Linked(t, nodes, i, parent, sons)
             else i == |nodes| && parent == nodes[p] && sons == []
    ensures Linked(u, nodes + [inserted], i, parent, if i == p then sons + [inserted] else sons)
  {
    hide HistoryOk, Descends, Kids, TreeOk, Live;
    InsertKids(t, u, i);
  }

  lemma LinkedAfterReset(t: Tree, n: nat, nodes: seq<Node>, i: nat, parent: Node?, sons: seq<Node>)
    requires TreeOk(t) && Live(t, n) && |nodes| == |t.hist| && Linked(t, nodes, i, parent, sons) && Live(Reset(t, n), i)
    ensures Linked(Reset(t, n), nodes, i, if i == n then null else parent, sons)
  {
    ResetEffect(t, n);
    if i == t.root && i != n {
      ResetCuts(t, n);
    }
  }

  class BasicTree {
    var root: Node
    var keySet: map<Bytes, Node>
    ghost var t: Tree
    ghost var nodes: seq<Node>  // every node ever inserted, by position
    ghost var repr: set<Node>   // the same nodes, as a frame

    /** n is the node at its own position. */
    ghost predicate Has(n: Node)
      reads this`nodes
    {
      n.pos < |nodes| && nodes[n.pos] == n
    }

    /** The nodes show the abstract tree. */
    ghost predicate Shaped()
      reads this`t, this`nodes, this`repr, repr
    {
      && TreeOk(t)
      && Shown(t.hist, nodes)
      && (forall i {:trigger nodes[i]} :: 0 <= i < |nodes| ==> nodes[i] in repr)
      && (forall i {:trigger Live(t, i)} :: 0 <= i < |nodes| && Live(t, i) ==>
            Linked(t, nodes, i, nodes[i].parent, nodes[i].sons))
    }

    ghost predicate Valid()
      reads this, repr
    {
      Shaped() && Indexed(t, keySet, nodes) && root == nodes[t.root]
    }

    /** For arguments the guard of NewBasicTree accepts. */
    constructor (round: int, id: Bytes, value: Bytes)
      requires round >= 0 && id != []
      ensures Valid() && t == NewTree(round, id, value) && fresh(repr)
      ensures nodes == [root]
    {
      var r := new Node(round, id, value, [], null, 0);
      root := r;
      keySet := map[id := r];
      t := NewTree(round, id, value);
      nodes := [r];
      repr := {r};
    }

    method Insert(round: int, id: Bytes, value: Option<Bytes>, parentKey: Bytes) returns (r: Result<Node, TreeError>)
      requires Valid()
      modifies this, repr
      ensures Valid() && fresh(repr - old(repr))
      ensures match TreeSpec.Insert(old(t), round, id, value, parentKey)
              case Ok(u) => r.Ok? && t == u && fresh(r.value) && nodes == old(nodes) + [r.value] && Has(r.value)
                            && r.value.pos == |old(nodes)|
              case Err(e) => r == Err(e) && t == old(t) && nodes == old(nodes)
    {
      hide HistoryOk, Descends, Live, TreeOk, Linked, Kids, Shown, Shaped, Extends, Absent, TreeSpec.LookUp;
      RootLive();
      if round < 0 || id == [] || value.None? {
        return Err(WrongElement);
      }
      if id in keySet {
        return Err(RepeatInsert);
      }
      if parentKey == [] {
        return Err(ParentEmpty);
      }
      var parent := Lookup(root, parentKey);
      if parent == null {
        AbsentLookUp(t, parentKey);
        return Err(Orphan);
      }
      FoundFacts(parent, parentKey);
      if parent.round >= round {
        return Err(WrongElement);
      }
      InsertEffect(t, round, id, value, parentKey);
      var inserted := new Node(round, id, value.value, parentKey, parent, |nodes|);
      Attach(parent, inserted, TreeSpec.Insert(t, round, id, value, parentKey).value);
      r := Ok(inserted);
    }

    lemma RootLive()
      requires Valid()
      ensures Shaped() && TreeOk(t) && Has(root) && root.pos == t.root && Live(t, t.root)
      ensures |nodes| == |t.hist| && forall i :: 0 <= i < |nodes| ==> nodes[i].pos == i
    {
    }

    lemma FoundFacts(n: Node, key: Bytes)
      requires Valid() && Has(n) && Live(t, n.pos) && n.id == key
      ensures TreeSpec.LookUp(t, key) == Some(n.pos) && n.pos < |t.hist| && n.round == t.hist[n.pos].round
    {
      LookUpExact(t, key, n.pos);
    }

    /** Indexes a new node and appends it to its parent's sons. */
    method Attach(parent: Node, inserted: Node, ghost u: Tree)
      requires Valid() && Has(parent) && Live(t, parent.pos) && Extends(t, u, parent.pos)
      requires inserted !in nodes && inserted.pos == |nodes| && Shows(inserted, u.hist[|t.hist|])
      requires inserted.parent == parent && inserted.sons == []
      modifies this, parent
      ensures Valid() && t == u && nodes == old(nodes) + [inserted] && repr == old(repr) + {inserted}
    {
      ghost var was, kept, keys := t, nodes, keySet;
      hide *;
      ValidFacts(u, parent, inserted);
      keySet := keySet[inserted.id := inserted];
      Link(parent, inserted, u);
      Extended(was, kept, keys, parent, inserted);
    }

    /** Appends a new node to its parent's sons. */
    method Link(parent: Node, inserted: Node, ghost u: Tree)
      requires Shaped() && Has(parent) && Extends(t, u, parent.pos)
      requires inserted != parent && inserted.pos == |nodes| && inserted.parent == parent && inserted.sons == []
      modifies this`t, this`nodes, this`repr, parent`sons
      ensures t == u && nodes == old(nodes) + [inserted] && repr == old(repr) + {inserted}
      ensures forall i {:trigger Live(t, i)} :: 0 <= i < |nodes| && Live(t, i) ==>
                Linked(t, nodes, i, nodes[i].parent, nodes[i].sons)
    {
      ghost var was, kept, sons := t, nodes, parent.sons;
      hide *;
      ShapedFacts(u, parent);
      parent.sons := parent.sons + [inserted];
      t, nodes, repr := u, nodes + [inserted], repr + {inserted};
      forall i | 0 <= i < |nodes| && Live(t, i) ensures Linked(t, nodes, i, nodes[i].parent, nodes[i].sons) {
        LinkedAfterInsert(was, u, parent.pos, kept, inserted, i, nodes[i].parent, if i == parent.pos then sons else nodes[i].sons);
      }
    }

    lemma ShapedFacts(u: Tree, parent: Node)
      requires Shaped() && Has(parent) && Extends(t, u, parent.pos)
      ensures |nodes| == |t.hist| && t.root < |nodes| && parent.pos < |nodes| && nodes[parent.pos] == parent
      ensures HistoryOk(u.hist) && |u.hist| == |nodes| + 1
      ensures forall i {:trigger nodes[i]} :: 0 <= i < |nodes| ==> nodes[i].pos == i
      ensures forall i {:trigger Live(u, i)} :: 0 <= i < |nodes| && Live(u, i) ==> Linked(t, nodes, i, nodes[i].parent, nodes[i].sons)
    {
    }

    lemma ValidFacts(u: Tree, parent: Node, inserted: Node)
      requires Valid() && Has(parent) && Extends(t, u, parent.pos)
      ensures Shaped() && TreeOk(t) && Shown(t.hist, nodes) && Indexed(t, keySet, nodes)
      ensures t.root < |nodes| && root == nodes[t.root] && parent in nodes && parent in repr
      ensures forall i {:trigger nodes[i]} :: 0 <= i < |nodes| ==> nodes[i] in repr
    {
    }

    lemma Extended(was: Tree, kept: seq<Node>, keys: map<Bytes, Node>, parent: Node, inserted: Node)
      requires TreeOk(was) && Shown(was.hist, kept) && Indexed(was, keys, kept) && Extends(was, t, parent.pos)
      requires nodes == kept + [inserted] && inserted.pos == |kept| && Shows(inserted, t.hist[|was.hist|])
      requires was.root < |kept| && root == kept[was.root] && keySet == keys[inserted.id := inserted]
      requires forall i {:trigger Live(t, i)} :: 0 <= i < |nodes| && Live(t, i) ==>
                 Linked(t, nodes, i, nodes[i].parent, nodes[i].sons)
      requires forall i {:trigger nodes[i]} :: 0 <= i < |nodes| ==> nodes[i] in repr
      ensures Valid()
    {
      hide HistoryOk, Live, Linked, Descends;
    }

    method Reset(newRoot: Node)
      requires Valid() && Has(newRoot) && Live(t, newRoot.pos)
      modifies this, repr
      ensures Valid() && repr == old(repr)
      ensures t == TreeSpec.Reset(old(t), newRoot.pos) && nodes == old(nodes)
    {
      ghost var n, was, keys := newRoot.pos, t, keySet;
      hide *;
      CutFacts(newRoot);
      RootFacts(newRoot);
      if newRoot.parent != null {
        Delete(root, newRoot.id);
        Unlink(newRoot);
      }
      root := newRoot;
      Reassemble(was, keys);
    }

    lemma RootFacts(newRoot: Node)
      requires Valid() && Has(newRoot) && Live(t, newRoot.pos)
      ensures Has(root) && root.pos == t.root && Live(t, t.root)
      ensures newRoot.id in t.keys && t.keys[newRoot.id] == newRoot.pos
      ensures newRoot.pos != t.root ==> !Descends(t.hist, t.root, newRoot.pos)
      ensures TreeOk(t) && Shown(t.hist, nodes) && Indexed(t, keySet, nodes)
      ensures newRoot.pos < |nodes| && nodes[newRoot.pos] == newRoot
      ensures newRoot.pos == t.root ==> TreeSpec.Reset(t, newRoot.pos) == t
    {
      if newRoot.pos != t.root {
        ResetCuts(t, newRoot.pos);
      }
    }

    lemma Reassemble(was: Tree, keys: map<Bytes, Node>)
      requires TreeOk(was) && Live(was, root.pos) && Shown(was.hist, nodes) && Indexed(was, keys, nodes)
      requires t == TreeSpec.Reset(was, root.pos) && root.pos < |nodes| && root == nodes[root.pos]
      requires keySet == if root.pos == was.root then keys else keys - Dropped(was, was.root, root.pos)
      requires forall i {:trigger Live(t, i)} :: 0 <= i < |nodes| && Live(t, i) ==>
                 Linked(t, nodes, i, nodes[i].parent, nodes[i].sons)
      requires forall i {:trigger nodes[i]} :: 0 <= i < |nodes| ==> nodes[i] in repr
      ensures Valid()
    {
      hide HistoryOk, Descends, TreeOk, Live, Linked, Dropped, Kids;
      ResetEffect(was, root.pos);
      IndexedAfter(was, keys, nodes, Dropped(was, was.root, root.pos));
    }

    lemma CutFacts(newRoot: Node)
      requires Shaped() && Has(newRoot) && Live(t, newRoot.pos)
      ensures TreeOk(t) && |nodes| == |t.hist|
      ensures newRoot.parent == null <==> newRoot.pos == t.root
      ensures newRoot in repr && forall i {:trigger nodes[i]} :: 0 <= i < |nodes| ==> nodes[i] in repr
      ensures newRoot.parent != null ==>
        && newRoot.parent in repr && newRoot.parent != newRoot && newRoot.parent.pos < |nodes|
        && !Descends(t.hist, newRoot.parent.pos, newRoot.pos)
      ensures forall i {:trigger nodes[i]} :: 0 <= i < |nodes| ==> nodes[i].pos == i
      ensures forall i {:trigger Live(t, i)} :: 0 <= i < |nodes| && Live(t, i) ==> Linked(t, nodes, i, nodes[i].parent, nodes[i].sons)
    {
      assert Linked(t, nodes, newRoot.pos, newRoot.parent, newRoot.sons);
      if newRoot.pos != t.root {
        ResetCuts(t, newRoot.pos);
      }
    }

    /** Takes newRoot off its parent. */
    method Unlink(newRoot: Node)
      requires Shaped() && Has(newRoot) && Live(t, newRoot.pos) && newRoot.parent != null
      modifies this`t, newRoot`parent, newRoot.parent`sons
      ensures t == TreeSpec.Reset(old(t), newRoot.pos)
      ensures forall i {:trigger Live(t, i)} :: 0 <= i < |nodes| && Live(t, i) ==>
                Linked(t, nodes, i, nodes[i].parent, nodes[i].sons)
    {
      ghost var n, was, cut := newRoot.pos, t, newRoot.parent;
      hide *;
      CutFacts(newRoot);
      newRoot.parent.sons := [];
      newRoot.parent := null;
      t := TreeSpec.Reset(was, n);
      forall i | 0 <= i < |nodes| && Live(t, i) ensures Linked(t, nodes, i, nodes[i].parent, nodes[i].sons) {
        ResetKeeps(was, n, i);
        LinkedAfterReset(was, n, nodes, i, if i == n then cut else nodes[i].parent, nodes[i].sons);
      }
    }

    /** LookUp, from the root. */
    method LookUp(key: Bytes) returns (r: Result<Node, TreeError>)
      requires Valid()
      ensures r.Ok? <==> TreeSpec.LookUp(t, key).Some?
      ensures r.Ok? ==> Has(r.value) && TreeSpec.LookUp(t, key) == Some(r.value.pos)
      ensures r.Err? ==> r.error == if key == [] then WrongElement else NotFound
    {
      hide HistoryOk, Descends, Live, TreeOk, Shown, Shaped, Absent, TreeSpec.LookUp, Indexed;
      RootLive();
      EmptyKey(t);
      if key == [] {
        return Err(WrongElement);
      }
      var n := Lookup(root, key);
      if n == null {
        AbsentLookUp(t, key);
        r := Err(NotFound);
      } else {
        FoundFacts(n, key);
        r := Ok(n);
      }
    }

    /** What a search may rely on at a live node. */
    lemma NodeFacts(n: Node)
      requires Shaped() && Has(n) && Live(t, n.pos)
      ensures TreeOk(t) && n.pos < |nodes| == |t.hist| && n.id == t.hist[n.pos].id
      ensures |n.sons| == |Kids(t.hist, n.pos, |t.hist|)|
      ensures forall j :: 0 <= j < |n.sons| ==>
        var son := n.sons[j];
        && son.pos == Kids(t.hist, n.pos, |t.hist|)[j]
        && Has(son) && Live(t, son.pos) && n.pos < son.pos < |t.hist|
    {
      assert Linked(t, nodes, n.pos, n.parent, n.sons);
      forall j | 0 <= j < |n.sons|
        ensures var son := n.sons[j];
          && son.pos == Kids(t.hist, n.pos, |t.hist|)[j]
          && Has(son) && Live(t, son.pos) && n.pos < son.pos < |t.hist|
      {
        hide HistoryOk, Descends, Kids, TreeOk, Live;
        KidFacts(t, n.pos, j);
      }
    }

    /** Depth-first search below n. */
    method Lookup(n: Node, key: Bytes) returns (r: Node?)
      requires Shaped() && Has(n) && Live(t, n.pos) && key != []
      ensures r == null ==> Absent(t, n.pos, key)
      ensures r != null ==> Has(r) && Live(t, r.pos) && r.id == key
      decreases |t.hist| - n.pos
    {
      hide *;
      NodeFacts(n);
      if n.id == key {
        return n;
      }
      var j := 0;
      while j < |n.sons|
        invariant j <= |n.sons|
        invariant forall s :: 0 <= s < j ==> Absent(t, n.sons[s].pos, key)
      {
        r := Lookup(n.sons[j], key);
        if r != null {
          return;
        }
        j := j + 1;
      }
      r := null;
      AbsentLevel(t, n.pos, key);
    }

    /** Takes the identifiers of inner nodes below `begin` out of the index, stopping at `target`. */
    method Delete(begin: Node, target: Bytes)
      requires Shaped() && Has(begin) && Live(t, begin.pos)
      requires target in t.keys && Live(t, t.keys[target])
      requires begin.pos == t.keys[target] || !Descends(t.hist, begin.pos, t.keys[target])
      modifies this`keySet
      ensures keySet == old(keySet) - Dropped(t, begin.pos, t.keys[target])
      decreases |t.hist| - begin.pos
    {
      hide *;
      ghost var was, goal, kids := keySet, t.keys[target], Kids(t.hist, begin.pos, |t.hist|);
      NodeFacts(begin);
      DeleteLevel(t, begin.pos, target);
      if begin.id == target {
        return;
      }
      if |begin.sons| == 0 {
        return;
      }
      keySet := keySet - {begin.id};
      ghost var gone := {begin.id};
      var j := 0;
      while j < |begin.sons|
        invariant j <= |begin.sons|
        invariant Shaped()
        invariant gone == {begin.id} + DroppedAll(t, kids[..j], goal)
        invariant keySet == was - gone
      {
        DroppedMore(t, kids, goal, j);
        MinusTwice(was, gone, Dropped(t, kids[j], goal));
        Delete(begin.sons[j], target);
        gone := gone + Dropped(t, kids[j], goal);
        j := j + 1;
      }
      assert kids[..j] == kids;
    }
  }

  /** NewBasicTree, with its refusal. */
  method NewBasicTree(round: int, id: Bytes, value: Option<Bytes>) returns (r: Result<BasicTree, TreeError>)
    ensures r.Err? <==> round < 0 || id == [] || value.None?
    ensures r.Err? ==> r.error == WrongElement
    ensures r.Ok? ==> r.value.Valid() && r.value.t == NewTree(round, id, value.value) && r.value.nodes == [r.value.root]
    ensures r.Ok? ==> fresh(r.value) && fresh(r.value.repr)
  {
    if round < 0 || id == [] || value == None {
      return Err(WrongElement);
    }
    var t := new BasicTree(round, id, value.value);
    r := Ok(t);
  }

  lemma MinusTwice<K, V>(m: map<K, V>, a: set<K>, b: set<K>)
    ensures m - a - b == m - (a + b)
  {
  }
}
