/** Types shared by the replica model and the wire codec. */
module Basics {

  /** Go strings and byte slices are both sequences of bytes. */
  type byte = x: int | 0 <= x < 256
  type Bytes = seq<byte>
  type PeerID = Bytes

  datatype Option<+T> = None | Some(value: T)
  datatype Result<+T, +E> = Ok(value: T) | Err(error: E)

  /** libs.HotstuffChaindStep */
  const CHAINED_STEP := 3

  function Max(a: int, b: int): int {
    if a < b then b else a
  }

  /** a[..n], read as a set. */
  function Elements<T>(a: seq<T>): set<T> {
    set x | x in a
  }

  // ---- Division ----

  lemma Remainder(q: nat, n: nat, i: nat)
    requires i < n
    ensures (q * n + i) % n == i
  {
    var x := q * n + i;
    Multiple(q - x / n, n, x % n - i);
  }

  /** The only multiple of n strictly between -n and n is 0. */
  lemma Multiple(d: int, n: nat, r: int)
    requires d * n == r && 0 < r + n && r < n
    ensures d == 0 && r == 0
  {
    AtLeastOnce(d, n);
    AtLeastOnce(-d, n);
  }

  lemma AtLeastOnce(d: int, n: nat)
    ensures d >= 1 ==> d * n >= n
    ensures d == 0 ==> d * n == 0
    ensures (-d) * n == -(d * n)
  {
    if d >= 1 {
      assert d * n == (d - 1) * n + n;
    }
  }
}
