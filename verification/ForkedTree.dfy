/**
 * A block tree with a fork, up to the moment the fork is pruned. It is the tree of the run in ForkedRun.
 */
module ForkedTree {
  import opened Basics
  import opened BlockHistory
  import opened TreeSpec
  import opened ChainSpec

  /** The parents of blocks 0 to 6: a chain 0-1-2-3-4, block 5 on block 0, block 6 on block 4. */
  const PARENTS: seq<nat> := [0, 0, 1, 2, 3, 0, 4]

  /** Block i has identifier [i] and round i. */
  function Cert(i: nat): QC
    requires i < 7
  {
    QC(i, [i], PARENTS[i], [PARENTS[i]], [])
  }

  function BlockAt(c: Codec, i: nat): Block
    requires i < 7
  {
    Block(i, [i], c.ser(Cert(i)), if i == 0 then [] else [PARENTS[i]], PARENTS[i])
  }

  function Keys(n: nat): map<Bytes, nat>
    requires 0 < n <= 7
  {
    if n == 1 then map[[0] := 0] else Keys(n - 1)[[n - 1] := n - 1]
  }

  lemma {:induction false} KeysExact(n: nat, k: Bytes)
    requires 0 < n <= 7
    ensures k in Keys(n) <==> |k| == 1 && k[0] < n
    ensures k in Keys(n) ==> Keys(n)[k] == k[0]
  {
    if |k| == 1 {
      assert k == [k[0]];
    }
    if n <= 1 {
    } else {
      KeysExact(n - 1, k);
    }
  }

  lemma ParentBefore(i: nat)
    requires 0 < i < 7
    ensures PARENTS[i] < i
  {
    assert i in {1, 2, 3, 4, 5, 6};
  }

  /** The tree after the first n blocks. */
  ghost function Grown(c: Codec, n: nat): Tree
    requires 0 < n <= 7
  {
    Tree(seq(n, i requires 0 <= i < n => BlockAt(c, i)), 0, Keys(n))
  }

  lemma {:induction false} FromRoot(h: seq<Block>, i: nat)
    requires HistoryOk(h) && i < |h|
    ensures Descends(h, i, 0)
  {
    if i == 0 {
    } else {
      FromRoot(h, h[i].parent);
    }
  }

  lemma GrownFacts(c: Codec, n: nat)
    requires 0 < n <= 7
    ensures var t := Grown(c, n);
      TreeOk(t) && |t.hist| == n && t.root == 0 && forall i: nat :: i < n ==> Live(t, i)
  {
    var t := Grown(c, n);
    forall i: nat {:trigger t.hist[i]} | i < n
      ensures t.hist[i].id == [i] && t.hist[i].round == i && t.hist[i].parent == PARENTS[i]
      ensures i > 0 ==> PARENTS[i] < i && t.hist[i].parentKey == [PARENTS[i]]
    {
      if i > 0 {
        ParentBefore(i);
      }
    }
    hide BlockAt, Keys;
    assert HistoryOk(t.hist);
    forall i: nat | i < n ensures Live(t, i) {
      FromRoot(t.hist, i);
    }
    forall k ensures k in t.keys <==> |k| == 1 && k[0] < n
      ensures k in t.keys ==> t.keys[k] == k[0]
    {
      KeysExact(n, k);
    }
    forall k | k in t.keys ensures k == [k[0]] {
    }
  }

  /** Inserting the next block of the table is accepted and grows the tree by it. */
  lemma InsertNext(c: Codec, n: nat)
    requires 0 < n < 7
    ensures TreeOk(Grown(c, n))
    ensures var q := Cert(n);
      Insert(Grown(c, n), q.round, q.id, Some(c.ser(q)), q.parentID) == Ok(Grown(c, n + 1))
  {
    var t, u := Grown(c, n), Grown(c, n + 1);
    GrownFacts(c, n);
    KeysExact(n, [n]);
    var q := Cert(n);
    ParentBefore(n);
    LookUpExact(t, q.parentID, PARENTS[n]);
    assert u.hist == t.hist + [BlockAt(c, n)];
  }

  lemma AboveGrown(c: Codec, n: nat, i: nat, k: nat)
    requires i < n <= 7
    ensures HistoryOk(Grown(c, n).hist) && Live(Grown(c, n), i)
    ensures k > 0 && i == 0 ==> Above(Grown(c, n), i, k) == None
    ensures k > 0 && i > 0 ==> PARENTS[i] < i && Live(Grown(c, n), PARENTS[i])
    ensures k > 0 && i > 0 ==> Above(Grown(c, n), i, k) == Above(Grown(c, n), PARENTS[i], k - 1)
  {
    GrownFacts(c, n);
    if i > 0 {
      ParentBefore(i);
    }
  }

  function Up(i: nat, k: nat): Option<nat>
    requires i < 7
  {
    if k == 0 then Some(i) else if i == 0 || PARENTS[i] >= i then None else Up(PARENTS[i], k - 1)
  }

  lemma {:induction false} AboveIsUp(c: Codec, n: nat, i: nat, k: nat)
    requires i < n <= 7
    ensures HistoryOk(Grown(c, n).hist) && Live(Grown(c, n), i)
    ensures Above(Grown(c, n), i, k) == Up(i, k)
    decreases k
  {
    hide Grown, Live, HistoryOk;
    AboveGrown(c, n, i, k);
    if k == 0 || i == 0 {
    } else {
      AboveIsUp(c, n, PARENTS[i], k - 1);
    }
  }

  /** The pointers after a redirect to block b. */
  function Toward(s: Chain, b: nat): Chain
    requires b < 7
  {
    if s.high > b then s
    else Chain(s.tree, b, if Up(b, 1).Some? then Up(b, 1).value else s.generic, if Up(b, 2).Some? then Up(b, 2) else s.locked,
               if Up(b, 3).Some? then Up(b, 3) else s.commit)
  }

  lemma RedirectGrown(c: Codec, n: nat, s: Chain, b: nat)
    requires Faithful(c) && b < n <= 7 && s.high < n && s.tree == Grown(c, n)
    ensures TreeOk(s.tree) && |s.tree.hist| == n && Live(s.tree, b)
    ensures Redirect(c, s, b) == Some(Toward(s, b))
  {
    GrownFacts(c, n);
    AboveIsUp(c, n, b, 1);
    AboveIsUp(c, n, b, 2);
    AboveIsUp(c, n, b, 3);
    assert Names(c, s.tree.hist[s.high].value, s.high, [s.high]);
    hide Up, TreeOk, HistoryOk, Live, Faithful;
  }

  lemma ExecuteGrown(c: Codec, n: nat, s: Chain)
    requires Faithful(c) && 0 < n < 7 && s.high < n && s.tree == Grown(c, n)
    ensures TreeOk(s.tree) && |s.tree.hist| == n
    ensures ExecuteNInsert(c, s, Cert(n)) == (Toward(s.(tree := Grown(c, n + 1)), PARENTS[n]), None)
  {
    ParentBefore(n);
    GrownFacts(c, n);
    InsertNext(c, n);
    var s1 := s.(tree := Grown(c, n + 1));
    RedirectGrown(c, n + 1, s1, PARENTS[n]);
    assert s1.tree.hist[n].parent == PARENTS[n];
  }

  lemma VoteGrown(c: Codec, n: nat, s: Chain, b: nat)
    requires Faithful(c) && 0 < b < n <= 7 && s.high < n && s.tree == Grown(c, n)
    ensures TreeOk(s.tree) && |s.tree.hist| == n
    ensures ProcessVote(c, s, Cert(b)) == (Toward(s, b), None)
  {
    GrownFacts(c, n);
    LookUpExact(s.tree, [b], b);
    RedirectGrown(c, n, s, b);
  }

  lemma Parents()
    ensures Up(0, 1) == None && Up(0, 2) == None && Up(0, 3) == None
    ensures Up(1, 1) == Some(0) && Up(1, 2) == None && Up(1, 3) == None
    ensures Up(2, 1) == Some(1) && Up(2, 2) == Some(0) && Up(2, 3) == None
    ensures Up(3, 1) == Some(2) && Up(3, 2) == Some(1) && Up(3, 3) == Some(0)
    ensures Up(4, 1) == Some(3) && Up(4, 2) == Some(2) && Up(4, 3) == Some(1)
    ensures Up(5, 1) == Some(0) && Up(5, 2) == None && Up(5, 3) == None
  {
  }

  lemma First(c: Codec)
    ensures NewTree(0, [0], c.ser(Cert(0))) == Grown(c, 1)
  {
  }

  /** The whole tree after the commit of block 1: blocks 0 and 5 are gone, and so is the key of 0, but not the key of 5. */
  lemma Pruned(c: Codec)
    ensures TreeOk(Grown(c, 7)) && Live(Grown(c, 7), 1)
    ensures var t := Reset(Grown(c, 7), 1);
      && TreeOk(t) && HistoryOk(t.hist) && t.hist == Grown(c, 7).hist && |t.hist| == 7 && t.root == 1
      && (forall i: nat {:trigger Live(t, i)} :: Live(t, i) <==> i in {1, 2, 3, 4, 6})
      && (forall i: nat {:trigger LookUp(t, [i])} :: i < 7 ==> LookUp(t, [i]) == if i in {0, 5} then None else Some(i))
      && [0] !in t.keys && [5] in t.keys && t.keys[[5]] == 5
      && Above(t, 4, 3) == Some(1)
  {
    hide Grown, Reset, TreeOk, HistoryOk, Live, LookUp, Up, Descends;
    var g := Grown(c, 7);
    GrownFacts(c, 7);
    Parents();
    AboveIsUp(c, 7, 4, 3);
    ResetEffect(g, 1);
    ResetAbove(g, 1, 4, 3);
    Branches(c);
    PrunedKeys(c);
    var t := Reset(g, 1);
    forall i: nat {:trigger Live(t, i)} ensures Live(t, i) <==> i in {1, 2, 3, 4, 6} {
      if Live(t, i) {
        LiveInside(t, i);
      }
    }
    forall i: nat {:trigger LookUp(t, [i])} | i < 7 ensures LookUp(t, [i]) == if i in {0, 5} then None else Some(i) {
      ResetLookUp(g, 1, [i]);
      Named(c, i);
      LookUpExact(g, [i], i);
    }
  }

  lemma Named(c: Codec, i: nat)
    requires i < 7
    ensures var h := Grown(c, 7).hist;
      |h| == 7 && h[i].id == [i] && h[i].round == i && h[i].parentKey == if i == 0 then [] else [PARENTS[i]]
  {
  }

  lemma PrunedKeys(c: Codec)
    ensures TreeOk(Grown(c, 7)) && Live(Grown(c, 7), 1)
    ensures var t := Reset(Grown(c, 7), 1); [0] !in t.keys && [5] in t.keys && t.keys[[5]] == 5
  {
    hide Grown, TreeOk, HistoryOk, Live, Reset, HasSons, Descends;
    var g := Grown(c, 7);
    GrownFacts(c, 7);
    Branches(c);
    Sons(c);
    ResetEffect(g, 1);
    Named(c, 0);
    assert Live(g, 0) && !Descends(g.hist, 0, 1);
    forall i: nat | Live(g, i) ensures i < |g.hist| {
      LiveInside(g, i);
    }
    if [5] !in Reset(g, 1).keys {
      var i: nat :| Live(g, i) && !Descends(g.hist, i, 1) && HasSons(g, i) && g.hist[i].id == [5];
      Named(c, i);
    }
  }

  lemma Sons(c: Codec)
    ensures var g := Grown(c, 7);
      HasSons(g, 0) && !HasSons(g, 5) && [0] in g.keys && [5] in g.keys && g.keys[[5]] == 5
  {
    hide Kids, Keys;
    var g := Grown(c, 7);
    KeysExact(7, [0]);
    KeysExact(7, [5]);
    KidsExact(g.hist, 0, 7, 1);
    if HasSons(g, 5) {
      KidsExact(g.hist, 5, 7, Kids(g.hist, 5, 7)[0]);
    }
  }

  lemma Branches(c: Codec)
    ensures forall i: nat {:trigger Descends(Grown(c, 7).hist, i, 1)} :: i < 7 ==>
              (Descends(Grown(c, 7).hist, i, 1) <==> i in {1, 2, 3, 4, 6})
  {
    var h := Grown(c, 7).hist;
    assert !Descends(h, 0, 1) && Descends(h, 1, 1) && !Descends(h, 5, 1);
    assert Descends(h, 2, 1) && Descends(h, 3, 2) && Descends(h, 4, 3) && Descends(h, 6, 4);
    DescendsTrans(h, 3, 2, 1);
    DescendsTrans(h, 4, 3, 1);
    DescendsTrans(h, 6, 4, 1);
    forall i: nat {:trigger Descends(h, i, 1)} | i < 7 ensures Descends(h, i, 1) <==> i in {1, 2, 3, 4, 6} {
      assert i in {0, 1, 2, 3, 4, 5, 6};
    }
  }
}
