/** getTimeoutID: the text "tmo_<round>_<index>", which names one timeout and no other. */
module TimeoutNames {
  import opened Basics

  function Digits(n: nat): (d: Bytes)
    ensures d != [] && forall k :: 0 <= k < |d| ==> 48 <= d[k] < 58
  {
    if n < 10 then [48 + n] else Digits(n / 10) + [48 + n % 10]
  }

  /** %d */
  function Decimal(i: int): (d: Bytes)
    ensures d != [] && forall k :: 0 <= k < |d| ==> d[k] != 95
  {
    if i < 0 then [45] + Digits(-i) else Digits(i)
  }

  function TimeoutID(round: int, index: int): Bytes {
    [116, 109, 111, 95] + (Decimal(round) + ([95] + Decimal(index)))
  }

  lemma {:induction false} DigitsInjective(m: nat, n: nat)
    requires Digits(m) == Digits(n)
    ensures m == n
  {
    var d, e := Digits(m), Digits(n);
    assert d[|d| - 1] == e[|e| - 1];
    if m < 10 || n < 10 {
    } else {
      assert d[..|d| - 1] == Digits(m / 10) && e[..|e| - 1] == Digits(n / 10);
      DigitsInjective(m / 10, n / 10);
    }
  }

  lemma DecimalInjective(i: int, j: int)
    requires Decimal(i) == Decimal(j)
    ensures i == j
  {
    assert (i < 0) == (Decimal(i)[0] == 45);
    assert (j < 0) == (Decimal(j)[0] == 45);
    if i < 0 {
      assert Decimal(i)[1..] == Digits(-i) && Decimal(j)[1..] == Digits(-j);
      DigitsInjective(-i, -j);
    } else {
      DigitsInjective(i, j);
    }
  }

  lemma FirstSeparator(a: Bytes, x: Bytes)
    requires forall k :: 0 <= k < |a| ==> a[k] != 95
    ensures var s := a + ([95] + x); s[|a|] == 95 && forall k :: 0 <= k < |a| ==> s[k] != 95
  {
  }

  /** Text before the first separator, and text after it, are determined by the whole. */
  lemma SplitUnique(a: Bytes, b: Bytes, x: Bytes, y: Bytes)
    requires a + ([95] + x) == b + ([95] + y)
    requires (forall k :: 0 <= k < |a| ==> a[k] != 95) && (forall k :: 0 <= k < |b| ==> b[k] != 95)
    ensures a == b && x == y
  {
    var s := a + ([95] + x);
    FirstSeparator(a, x);
    FirstSeparator(b, y);
    assert |a| == |b|;
    assert a == s[..|a|] && b == s[..|b|];
    assert x == s[|a| + 1..] && y == s[|b| + 1..];
  }

  lemma TimeoutIDUnique(r: int, i: int, q: int, j: int)
    requires TimeoutID(r, i) == TimeoutID(q, j)
    ensures r == q && i == j
  {
    assert TimeoutID(r, i)[4..] == Decimal(r) + ([95] + Decimal(i));
    assert TimeoutID(q, j)[4..] == Decimal(q) + ([95] + Decimal(j));
    SplitUnique(Decimal(r), Decimal(q), Decimal(i), Decimal(j));
    DecimalInjective(r, q);
    DecimalInjective(i, j);
  }
}
