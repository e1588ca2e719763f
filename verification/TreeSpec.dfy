/**
 * state/bt/basic_tree.go as a value: the history, the position of the root, and the key index.
 * The live tree is exactly what descends from the root.
 */
module TreeSpec {
  import opened Basics
  import opened BlockHistory

  datatype TreeError = WrongElement | RepeatInsert | ParentEmpty | Orphan | NotFound

  datatype Tree = Tree(hist: seq<Block>, root: nat, keys: map<Bytes, nat>)

  ghost predicate Live(t: Tree, i: nat) {
    i < |t.hist| && Descends(t.hist, i, t.root)
  }

  lemma LiveParent(t: Tree, i: nat)
    requires HistoryOk(t.hist) && Live(t, i) && i != t.root
    ensures t.hist[i].parent < i && Live(t, t.hist[i].parent)
  {
  }

  /** What is true of the j-th kid k of a live block i. */
  lemma KidFacts(t: Tree, i: nat, j: nat)
    requires TreeOk(t) && Live(t, i) && j < |Kids(t.hist, i, |t.hist|)|
    ensures var k := Kids(t.hist, i, |t.hist|)[j];
      i < k < |t.hist| && Live(t, k) && k != t.root && t.hist[k].parent == i
  {
    var k := Kids(t.hist, i, |t.hist|)[j];
    if k == t.root {
      DescendsRounds(t.hist, i, k);
    }
    assert Descends(t.hist, k, i);
  }

  /** A subtree is its top and the subtrees of its kids. */
  lemma SubtreeSplit(t: Tree, i: nat, x: nat)
    requires TreeOk(t) && Live(t, i) && Descends(t.hist, x, i)
    ensures x < |t.hist|
    ensures x == i || exists s :: 0 <= s < |Kids(t.hist, i, |t.hist|)| && Descends(t.hist, x, Kids(t.hist, i, |t.hist|)[s])
  {
    if x != i {
      var b := Branch(t.hist, x, i);
      KidsExact(t.hist, i, |t.hist|, b);
    }
  }

  lemma EmptyKey(t: Tree)
    requires TreeOk(t)
    ensures LookUp(t, []) == None
  {
  }

  /** No block in the subtree of a has this identifier. */
  ghost predicate Absent(t: Tree, a: nat, key: Bytes) {
    forall i: nat :: Descends(t.hist, i, a) ==> i < |t.hist| && t.hist[i].id != key
  }

  lemma AbsentLookUp(t: Tree, key: Bytes)
    requires TreeOk(t) && Absent(t, t.root, key)
    ensures LookUp(t, key) == None
  {
  }

  lemma AbsentLevel(t: Tree, a: nat, key: Bytes)
    requires TreeOk(t) && Live(t, a) && t.hist[a].id != key
    requires forall s :: 0 <= s < |Kids(t.hist, a, |t.hist|)| ==> Absent(t, Kids(t.hist, a, |t.hist|)[s], key)
    ensures Absent(t, a, key)
  {
    forall i: nat | Descends(t.hist, i, a) ensures i < |t.hist| && t.hist[i].id != key {
      SubtreeSplit(t, a, i);
    }
  }

  /** The n-th block up the Parent pointers, None as soon as one link is nil: pruning cut the root's. */
  ghost function Above(t: Tree, i: nat, n: nat): (a: Option<nat>)
    requires HistoryOk(t.hist) && Live(t, i)
    ensures a.Some? ==> Live(t, a.value) && Descends(t.hist, i, a.value) && a.value <= i
    ensures a.Some? && n > 0 ==> a.value < i && t.hist[a.value].round < t.hist[i].round
    decreases n
  {
    if n == 0 then Some(i)
    else if i == t.root then None
    else LiveParent(t, i); Above(t, t.hist[i].parent, n - 1)
  }

  /** Live identifiers are distinct and indexed; every other key is left over from a pruned leaf. */
  ghost predicate TreeOk(t: Tree) {
    && HistoryOk(t.hist)
    && t.root < |t.hist|
    && (forall i {:trigger Live(t, i)} :: 0 <= i < |t.hist| && Live(t, i) ==> t.hist[i].id in t.keys && t.keys[t.hist[i].id] == i)
    && (forall k :: k in t.keys ==>
          && t.keys[k] < |t.hist|
          && t.hist[t.keys[k]].id == k)
  }

  ghost function NewTree(round: int, id: Bytes, value: Bytes): Tree {
    Tree([Block(round, id, value, [], 0)], 0, map[id := 0])
  }

  ghost function LookUp(t: Tree, key: Bytes): Option<nat> {
    if key in t.keys && Live(t, t.keys[key]) then Some(t.keys[key]) else None
  }

  /** The node found is the one live block with that identifier, and it is found whenever there is one. */
  lemma LookUpExact(t: Tree, key: Bytes, i: nat)
    requires TreeOk(t)
    ensures LookUp(t, key) == Some(i) <==> Live(t, i) && t.hist[i].id == key
  {
  }

  ghost function Insert(t: Tree, round: int, id: Bytes, value: Option<Bytes>, parentKey: Bytes): Result<Tree, TreeError>
    requires TreeOk(t)
  {
    if round < 0 || id == [] || value.None? then Err(WrongElement)
    else if id in t.keys then Err(RepeatInsert)
    else if parentKey == [] then Err(ParentEmpty)
    else match LookUp(t, parentKey) {
      case None => Err(Orphan)
      case Some(p) =>
        if t.hist[p].round >= round then Err(WrongElement)
        else Ok(Tree(t.hist + [Block(round, id, value.value, parentKey, p)], t.root, t.keys[id := |t.hist|]))
    }
  }

  ghost predicate HasSons(t: Tree, i: nat) {
    Kids(t.hist, i, |t.hist|) != []
  }

  /** Keys that deleting from `begin`, stopping at `target`, takes out of the index. */
  ghost function Dropped(t: Tree, begin: nat, target: nat): set<Bytes> {
    set k | k in t.keys && Descends(t.hist, t.keys[k], begin)
            && !Descends(t.hist, t.keys[k], target) && HasSons(t, t.keys[k])
  }

  ghost function DroppedAll(t: Tree, begins: seq<nat>, target: nat): set<Bytes> {
    if begins == [] then {}
    else DroppedAll(t, begins[..|begins| - 1], target) + Dropped(t, begins[|begins| - 1], target)
  }

  lemma {:induction false} DroppedAllExact(t: Tree, begins: seq<nat>, target: nat, k: Bytes)
    ensures k in DroppedAll(t, begins, target) <==> exists s :: 0 <= s < |begins| && k in Dropped(t, begins[s], target)
  {
    if begins == [] {
    } else {
      var init := begins[..|begins| - 1];
      DroppedAllExact(t, init, target, k);
      if s :| 0 <= s < |begins| && k in Dropped(t, begins[s], target) {
        assert s < |init| ==> k in Dropped(t, init[s], target);
      }
    }
  }

  lemma DroppedBelowSons(t: Tree, begin: nat, goal: nat, k: Bytes)
    requires TreeOk(t) && begin < |t.hist|
    ensures k in DroppedAll(t, Kids(t.hist, begin, |t.hist|), goal) <==>
      k in t.keys && t.keys[k] != begin && k in Dropped(t, begin, goal)
  {
    var kids := Kids(t.hist, begin, |t.hist|);
    if k in t.keys && t.keys[k] != begin && k in Dropped(t, begin, goal) {
      var b := Branch(t.hist, t.keys[k], begin);
      KidsExact(t.hist, begin, |t.hist|, b);
      var s :| 0 <= s < |kids| && kids[s] == b;
      assert k in Dropped(t, kids[s], goal);
    }
    DroppedAllExact(t, kids, goal, k);
    if k in DroppedAll(t, kids, goal) {
      var s :| 0 <= s < |kids| && k in Dropped(t, kids[s], goal);
      DescendsRounds(t.hist, t.keys[k], kids[s]);
      assert Descends(t.hist, kids[s], begin);
      DescendsTrans(t.hist, t.keys[k], kids[s], begin);
    }
  }

  /** One level of deletion: the block itself if it has sons, and what its sons' subtrees drop. */
  lemma DroppedStep(t: Tree, begin: nat, goal: nat)
    requires TreeOk(t) && Live(t, begin) && !Descends(t.hist, begin, goal)
    ensures Dropped(t, begin, goal) ==
      (if HasSons(t, begin) then {t.hist[begin].id} else {}) + DroppedAll(t, Kids(t.hist, begin, |t.hist|), goal)
  {
    forall k ensures k in Dropped(t, begin, goal) <==>
        (HasSons(t, begin) && k == t.hist[begin].id) || k in DroppedAll(t, Kids(t.hist, begin, |t.hist|), goal)
    {
      DroppedBelowSons(t, begin, goal, k);
    }
  }

  /** One call of delete: nothing at the target; elsewhere the block's own key if it has sons, then the sons. */
  lemma DeleteLevel(t: Tree, begin: nat, target: Bytes)
    requires TreeOk(t) && Live(t, begin) && target in t.keys && Live(t, t.keys[target])
    requires begin == t.keys[target] || !Descends(t.hist, begin, t.keys[target])
    ensures t.hist[begin].id == target ==> Dropped(t, begin, t.keys[target]) == {}
    ensures t.hist[begin].id != target ==>
      var goal := t.keys[target];
      var kids := Kids(t.hist, begin, |t.hist|);
      && Dropped(t, begin, goal) == (if |kids| == 0 then {} else {t.hist[begin].id} + DroppedAll(t, kids, goal))
      && (forall j :: 0 <= j < |kids| ==> kids[j] == goal || !Descends(t.hist, kids[j], goal))
      && DroppedAll(t, kids[..0], goal) == {}
  {
    if t.hist[begin].id != target {
      DroppedStep(t, begin, t.keys[target]);
    }
  }

  lemma DroppedMore(t: Tree, kids: seq<nat>, goal: nat, j: nat)
    requires j < |kids|
    ensures DroppedAll(t, kids[..j + 1], goal) == DroppedAll(t, kids[..j], goal) + Dropped(t, kids[j], goal)
  {
    assert kids[..j + 1][..j] == kids[..j];
  }

  ghost function Reset(t: Tree, n: nat): Tree {
    if n == t.root then t else Tree(t.hist, n, t.keys - Dropped(t, t.root, n))
  }

  lemma NewTreeOk(round: int, id: Bytes, value: Bytes)
    requires round >= 0 && id != []
    ensures TreeOk(NewTree(round, id, value))
  {
  }

  /** u is t with one more leaf, under block p. */
  ghost predicate Extends(t: Tree, u: Tree, p: nat) {
    && TreeOk(u) && t.hist <= u.hist && |u.hist| == |t.hist| + 1 && u.root == t.root
    && u.hist[|t.hist|].parent == p && Live(u, |t.hist|) && |t.hist| != u.root
    && u.keys == t.keys[u.hist[|t.hist|].id := |t.hist|]
    && (forall i: nat {:trigger Live(u, i)} :: i < |t.hist| ==> (Live(u, i) <==> Live(t, i)))
  }

  /**
   * A successful insertion adds one live leaf under the live block named by the parent key,
   * at a larger round, and leaves every other block as live as it was.
   */
  lemma InsertEffect(t: Tree, round: int, id: Bytes, value: Option<Bytes>, parentKey: Bytes)
    requires TreeOk(t) && Insert(t, round, id, value, parentKey).Ok?
    ensures var u := Insert(t, round, id, value, parentKey).value;
      && LookUp(t, parentKey).Some?
      && Extends(t, u, LookUp(t, parentKey).value)
      && u.hist[|t.hist|] == Block(round, id, value.value, parentKey, LookUp(t, parentKey).value)
      && t.hist[LookUp(t, parentKey).value].round < round
      && (forall i: nat :: Live(t, i) ==> t.hist[i].id != id)
  {
    var u := Insert(t, round, id, value, parentKey).value;
    forall i: nat | i < |t.hist| ensures Live(u, i) <==> Live(t, i) {
      DescendsPrefix(t.hist, u.hist, i, t.root);
    }
    assert Descends(u.hist, u.hist[|t.hist|].parent, u.root);
  }

  /** When an insertion succeeds, and each of its refusals, told by the live blocks and the keys. */
  lemma InsertExactly(t: Tree, round: int, id: Bytes, value: Option<Bytes>, parentKey: Bytes)
    requires TreeOk(t)
    ensures var r := Insert(t, round, id, value, parentKey);
      var sound := round >= 0 && id != [] && value.Some?;
      && (r.Ok? <==>
            sound && id !in t.keys && exists p: nat :: Live(t, p) && p < |t.hist| && t.hist[p].id == parentKey && t.hist[p].round < round)
      && (r == Err(RepeatInsert) <==> sound && id in t.keys)
      && (r == Err(ParentEmpty) <==> sound && id !in t.keys && parentKey == [])
      && (r == Err(Orphan) <==>
            sound && id !in t.keys && parentKey != [] && forall p: nat :: Live(t, p) && p < |t.hist| ==> t.hist[p].id != parentKey)
      && (r == Err(WrongElement) <==>
            !sound || (id !in t.keys && exists p: nat :: Live(t, p) && p < |t.hist| && t.hist[p].id == parentKey && t.hist[p].round >= round))
  {
    hide Live;
    forall p: nat | Live(t, p) ensures p < |t.hist| && t.hist[p].id != [] && LookUp(t, t.hist[p].id) == Some(p) {
      LiveInside(t, p);
      LookUpExact(t, t.hist[p].id, p);
    }
    if LookUp(t, parentKey).Some? {
      LookUpExact(t, parentKey, LookUp(t, parentKey).value);
    }
  }

  /** The new leaf is the last kid of its parent and has none itself. */
  lemma InsertKids(t: Tree, u: Tree, i: nat)
    requires HistoryOk(u.hist) && t.hist <= u.hist && |u.hist| == |t.hist| + 1 && |t.hist| > 0
    ensures i == |t.hist| ==> Kids(u.hist, i, |u.hist|) == []
    ensures i < |t.hist| ==>
      Kids(u.hist, i, |u.hist|) == Kids(t.hist, i, |t.hist|) + (if u.hist[|t.hist|].parent == i then [|t.hist|] else [])
  {
    if i < |t.hist| {
      KidsPrefix(t.hist, u.hist, i, |t.hist|);
    } else if i == |t.hist| && Kids(u.hist, i, |u.hist|) != [] {
      KidsExact(u.hist, i, |u.hist|, Kids(u.hist, i, |u.hist|)[0]);
    }
  }

  /** Insertion changes no upward chain of a block that was already live. */
  lemma AboveParent(t: Tree, x: nat, n: nat)
    requires TreeOk(t) && Live(t, x) && n > 0
    ensures HistoryOk(t.hist) && x < |t.hist|
    ensures x != t.root ==>
      && t.hist[x].parent < |t.hist| && Live(t, t.hist[x].parent)
      && Above(t, x, n) == Above(t, t.hist[x].parent, n - 1)
    ensures x == t.root ==> Above(t, x, n) == None
  {
    hide Live;
    assert x < |t.hist| by { LiveInside(t, x); }
    if x != t.root {
      LiveParent(t, x);
    }
  }

  lemma LiveInside(t: Tree, x: nat)
    requires Live(t, x)
    ensures x < |t.hist|
  {
  }

  lemma {:induction false} InsertAbove(t: Tree, u: Tree, p: nat, i: nat, n: nat)
    requires TreeOk(t) && Extends(t, u, p) && Live(t, i) && Live(u, i)
    ensures Above(u, i, n) == Above(t, i, n)
    decreases n
  {
    hide TreeOk, HistoryOk, Live;
    if n == 0 {
    } else {
      AboveParent(t, i, n);
      AboveParent(u, i, n);
      if i != t.root {
        InsertAbove(t, u, p, t.hist[i].parent, n - 1);
      }
    }
  }

  /**
   * Resetting to a live block: the live tree becomes exactly the subtree of that block, with its
   * history untouched, and the index loses exactly the identifiers of the live blocks outside
   * the subtree that had a son; leaves outside stay behind as reserved keys.
   */
  lemma ResetEffect(t: Tree, n: nat)
    requires TreeOk(t) && Live(t, n)
    ensures var u := Reset(t, n);
      && TreeOk(u) && u.hist == t.hist && u.root == n
      && (forall i: nat :: Live(u, i) <==> Live(t, i) && Descends(t.hist, i, n))
      && (forall k :: k in t.keys ==>
            (k !in u.keys <==>
               exists i: nat :: Live(t, i) && !Descends(t.hist, i, n) && HasSons(t, i) && t.hist[i].id == k))
      && (forall k :: k in u.keys ==> k in t.keys && u.keys[k] == t.keys[k])
  {
    var u := Reset(t, n);
    forall i: nat ensures Live(u, i) <==> Live(t, i) && Descends(t.hist, i, n) {
      if Live(u, i) {
        DescendsTrans(t.hist, i, n, t.root);
      }
    }
    forall k | k in t.keys
      ensures k !in u.keys <==>
        exists i: nat :: Live(t, i) && !Descends(t.hist, i, n) && HasSons(t, i) && t.hist[i].id == k
    {
      if k !in u.keys {
        var i := t.keys[k];
        assert Live(t, i) && !Descends(t.hist, i, n) && HasSons(t, i) && t.hist[i].id == k;
      }
    }
  }

  /** The block above the new root is cut off. */
  lemma ResetCuts(t: Tree, n: nat)
    requires TreeOk(t) && Live(t, n) && n != t.root
    ensures var p := t.hist[n].parent; p < |t.hist| && Live(t, p) && p != n && !Descends(t.hist, p, n)
    ensures t.hist[n].id in t.keys && t.keys[t.hist[n].id] == n && !Descends(t.hist, t.root, n) && Live(t, t.root)
  {
    var p := t.hist[n].parent;
    LiveParent(t, n);
    if Descends(t.hist, p, n) {
      DescendsRounds(t.hist, p, n);
    }
    if Descends(t.hist, t.root, n) {
      DescendsRounds(t.hist, t.root, n);
      DescendsRounds(t.hist, n, t.root);
    }
  }

  lemma ResetKeeps(t: Tree, n: nat, i: nat)
    requires TreeOk(t) && Live(t, n) && Live(Reset(t, n), i)
    ensures Live(t, i) && Descends(t.hist, i, n)
  {
    ResetEffect(t, n);
  }

  /** After a reset a key is found exactly when it was found before, inside the kept subtree. */
  lemma ResetLookUp(t: Tree, n: nat, key: Bytes)
    requires TreeOk(t) && Live(t, n)
    ensures LookUp(Reset(t, n), key) ==
      match LookUp(t, key)
      case Some(i) => if Descends(t.hist, i, n) then Some(i) else None
      case None => None
  {
    ResetEffect(t, n);
    var u := Reset(t, n);
    if LookUp(t, key).Some? {
      var i := LookUp(t, key).value;
      LookUpExact(t, key, i);
      LookUpExact(u, key, i);
    }
    if LookUp(u, key).Some? {
      var j := LookUp(u, key).value;
      LookUpExact(u, key, j);
      LookUpExact(t, key, j);
    }
  }

  /** A chain of parent links ending at a survives resetting to a. */
  lemma {:induction false} ResetAbove(t: Tree, a: nat, x: nat, n: nat)
    requires TreeOk(t) && Live(t, x) && Live(t, a) && HistoryOk(t.hist) && Above(t, x, n) == Some(a)
    ensures TreeOk(Reset(t, a)) && HistoryOk(Reset(t, a).hist) && Live(Reset(t, a), x) && Above(Reset(t, a), x, n) == Some(a)
    decreases n
  {
    hide TreeOk, HistoryOk, Live, Reset, Descends;
    ResetEffect(t, a);
    if n == 0 {
    } else {
      AboveParent(t, x, n);
      ResetAbove(t, a, t.hist[x].parent, n - 1);
      AboveParent(Reset(t, a), x, n);
    }
  }
}
