/**
 * The append-only history of every block a replica ever inserted. A block is named by its
 * position; the parent position is recorded once and survives pruning, which cuts the heap
 * pointers. Position 0 is the start block and has no parent.
 */
module BlockHistory {
  import opened Basics

  datatype Block = Block(round: int, id: Bytes, value: Bytes, parentKey: Bytes, parent: nat)

  ghost predicate HistoryOk(h: seq<Block>) {
    && |h| > 0
    && (forall i :: 0 <= i < |h| ==> h[i].round >= 0 && h[i].id != [])
    && (forall i {:trigger h[i].parent} :: 0 < i < |h| ==>
          && h[i].parent < i
          && h[h[i].parent].round < h[i].round
          && h[i].parentKey == h[h[i].parent].id)
  }

  /** Block i is block a or one of its descendants. */
  ghost predicate Descends(h: seq<Block>, i: nat, a: nat)
    decreases i
  {
    i == a || (0 < i < |h| && h[i].parent < i && Descends(h, h[i].parent, a))
  }

  /** Positions below n whose parent is block i, in insertion order. */
  ghost function Kids(h: seq<Block>, i: nat, n: nat): (s: seq<nat>)
    requires n <= |h|
    ensures forall j :: 0 <= j < |s| ==> 0 < s[j] < n && h[s[j]].parent == i
  {
    if n <= 1 then []
    else if h[n - 1].parent == i then Kids(h, i, n - 1) + [n - 1]
    else Kids(h, i, n - 1)
  }

  lemma {:induction false} KidsExact(h: seq<Block>, i: nat, n: nat, k: nat)
    requires n <= |h|
    ensures k in Kids(h, i, n) <==> 0 < k < n && h[k].parent == i
  {
    if n <= 1 {
    } else {
      KidsExact(h, i, n - 1, k);
    }
  }

  lemma {:induction false} KidsPrefix(h: seq<Block>, g: seq<Block>, i: nat, n: nat)
    requires n <= |h| && h <= g
    ensures Kids(g, i, n) == Kids(h, i, n)
  {
    if n <= 1 {
    } else {
      KidsPrefix(h, g, i, n - 1);
    }
  }

  lemma DescendsSelf(h: seq<Block>, i: nat)
    ensures Descends(h, i, i)
  {
  }

  lemma {:induction false} DescendsRounds(h: seq<Block>, i: nat, a: nat)
    requires HistoryOk(h) && i < |h| && Descends(h, i, a)
    ensures a <= i
    ensures i == a || h[a].round < h[i].round
    decreases i
  {
    if i == a {
    } else {
      DescendsRounds(h, h[i].parent, a);
    }
  }

  lemma {:induction false} DescendsTrans(h: seq<Block>, i: nat, b: nat, a: nat)
    requires Descends(h, i, b) && Descends(h, b, a)
    ensures Descends(h, i, a)
    decreases i
  {
    if i == b {
    } else {
      DescendsTrans(h, h[i].parent, b, a);
    }
  }

  /** The ancestors of one block lie on a line. */
  lemma {:induction false} AncestorsLinear(h: seq<Block>, i: nat, a: nat, b: nat)
    requires Descends(h, i, a) && Descends(h, i, b)
    ensures Descends(h, a, b) || Descends(h, b, a)
    decreases i
  {
    if i == a || i == b {
    } else {
      AncestorsLinear(h, h[i].parent, a, b);
    }
  }

  lemma {:induction false} DescendsPrefix(h: seq<Block>, g: seq<Block>, i: nat, a: nat)
    requires h <= g && i < |h|
    ensures Descends(g, i, a) == Descends(h, i, a)
    decreases i
  {
    if i == a || i == 0 || h[i].parent >= i {
    } else {
      DescendsPrefix(h, g, h[i].parent, a);
    }
  }

  /** A proper descendant of a lies under exactly one kid of a; this is that kid. */
  ghost function Branch(h: seq<Block>, i: nat, a: nat): (k: nat)
    requires Descends(h, i, a) && i != a
    ensures 0 < k < |h| && k <= i && h[k].parent == a && a < k && Descends(h, i, k)
    decreases i
  {
    if h[i].parent == a then i else Branch(h, h[i].parent, a)
  }
}
