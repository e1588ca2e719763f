/**
 * The wire level shared by pb/hotstuff.pb.go and pb/conn.pb.go, over values: base 128 varints on 64-bit
 * words, length-delimited chunks, and the skipper for fields the parser does not know.
 */
module Wire {
  import opened Basics

  const INT64: int := 0x8000_0000_0000_0000
  const UINT64: int := 0x1_0000_0000_0000_0000
  const INT32: int := 0x8000_0000
  const UINT32: int := 0x1_0000_0000

  type uint64 = x: int | 0 <= x < UINT64
  type int64 = x: int | -INT64 <= x < INT64
  type int32 = x: int | -INT32 <= x < INT32

  datatype WireError =
    | IntOverflow | UnexpectedEOF | InvalidLength | EndGroup | IllegalTag | WrongWireType | IllegalWireType | UnexpectedEndOfGroup

  // ---- Go integer conversions ----

  function ToU64(v: int): uint64 {
    v % UINT64
  }

  function ToInt64(v: int): int64 {
    var u := v % UINT64;
    if u < INT64 then u else u - UINT64
  }

  function ToInt32(v: int): int32 {
    var u := v % UINT32;
    if u < INT32 then u else u - UINT32
  }

  /** uint64(x) sign-extends, and the conversions back truncate: nothing is lost, negative numbers included. */
  lemma ConversionsUndo(v: int)
    ensures -INT64 <= v < INT64 ==> ToInt64(ToU64(v)) == v
    ensures -INT32 <= v < INT32 ==> ToInt32(ToU64(v)) == v
    ensures -INT64 <= v < INT64 && v != 0 ==> ToU64(v) != 0
  {
    hide ToU64, ToInt32, ToInt64;
    if -INT64 <= v < INT64 {
      Undo64(v);
    }
    if -INT32 <= v < INT32 {
      Undo32(v);
    }
  }

  /** The conversions of any number keep its low bits, and nothing but the range decides the rest. */
  lemma LowBitsKept(v: int)
    ensures (ToInt64(v) - v) % UINT64 == 0 && (ToInt32(v) - v) % UINT32 == 0 && (ToU64(v) - v) % UINT64 == 0
  {
    Wraps(v, UINT64);
    Wraps(v, UINT32);
  }

  lemma Wraps(v: int, m: nat)
    requires m > 0
    ensures (v % m - v) % m == 0 && (v % m - m - v) % m == 0
  {
    assert v % m - v == -(v / m) * m;
    MultipleOf(-(v / m), m);
    assert v % m - m - v == (-(v / m) - 1) * m;
    MultipleOf(-(v / m) - 1, m);
  }

  lemma MultipleOf(q: int, m: nat)
    requires m > 0
    ensures q * m % m == 0
  {
    var x := q * m;
    Multiple(q - x / m, m, x % m);
  }

  lemma Undo64(v: int)
    requires -INT64 <= v < INT64
    ensures ToInt64(ToU64(v)) == v && (v != 0 ==> ToU64(v) != 0)
  {
    assert ToU64(v) == if v < 0 then v + UINT64 else v;
  }

  lemma Undo32(v: int)
    requires -INT32 <= v < INT32
    ensures ToInt32(ToU64(v)) == v
  {
    assert ToU64(v) == if v < 0 then v + UINT64 else v;
    assert v < 0 ==> ToU64(v) == v + UINT32 + (UINT32 - 1) * UINT32;
  }

  // ---- Varints ----

  /** encodeVarintHotstuff: seven bits a byte, least significant first. */
  function Varint(v: nat): (s: Bytes)
    ensures s != []
  {
    if v < 128 then [v] else [v % 128 + 128] + Varint(v / 128)
  }

  function BitLen(x: nat): nat {
    if x == 0 then 0 else 1 + BitLen(x / 2)
  }

  /** sovHotstuff: (Len64(x|1)+6)/7 */
  function Sov(x: nat): nat {
    (BitLen(x + 1 - x % 2) + 6) / 7
  }

  /** The arithmetic size is the number of bytes the encoder writes. */
  lemma {:induction false} SovExact(x: nat)
    ensures Sov(x) == |Varint(x)|
  {
    hide BitLen;
    BitLenOdd(x);
    if x < 128 {
      BitLenSmall(x);
    } else {
      ShiftSeven(x);
      BitLenShift(x, 7);
      BitLenOdd(x / 128);
      SovExact(x / 128);
    }
  }

  /** Setting the lowest bit changes the length of 0 only. */
  lemma BitLenOdd(x: nat)
    ensures BitLen(x + 1 - x % 2) == if x == 0 then 1 else BitLen(x)
  {
    assert (x + 1 - x % 2) / 2 == x / 2;
    assert BitLen(1) == 1 + BitLen(0);
  }

  function Shift(x: nat, k: nat): nat {
    if k == 0 then x else Shift(x / 2, k - 1)
  }

  lemma ShiftThree(x: nat, k: nat)
    requires k >= 3
    ensures Shift(x, k) == Shift(x / 8, k - 3)
  {
    assert Shift(x, k) == Shift(x / 2, k - 1) == Shift(x / 2 / 2, k - 2) == Shift(x / 2 / 2 / 2, k - 3);
  }

  lemma ShiftSeven(x: nat)
    ensures Shift(x, 6) == x / 64 && Shift(x, 7) == x / 128
  {
    ShiftThree(x, 6);
    ShiftThree(x / 8, 3);
    ShiftThree(x, 7);
    ShiftThree(x / 8, 4);
    assert Shift(x / 64, 1) == Shift(x / 128, 0);
  }

  lemma {:induction false} BitLenShift(x: nat, k: nat)
    requires k > 0 ==> Shift(x, k - 1) > 0
    ensures BitLen(x) == k + BitLen(Shift(x, k))
  {
    if k == 0 {
    } else {
      ShiftPositive(x, k - 1);
      BitLenShift(x / 2, k - 1);
    }
  }

  lemma {:induction false} ShiftPositive(x: nat, k: nat)
    requires Shift(x, k) > 0
    ensures x > 0 && (k > 0 ==> Shift(x / 2, k - 1) > 0)
    ensures k > 0 ==> Shift(x, k - 1) > 0
  {
    if k == 0 {
    } else {
      ShiftPositive(x / 2, k - 1);
    }
  }

  lemma BitLenSmall(x: nat)
    requires x < 128
    ensures BitLen(x) <= 7 && (x > 0 ==> BitLen(x) >= 1)
  {
    var a, b, c := x / 2, x / 2 / 2, x / 2 / 2 / 2;
    assert BitLen(c / 2 / 2 / 2 / 2) == 0;
    assert BitLen(c / 2 / 2 / 2) <= 1;
    assert BitLen(c / 2 / 2) <= 2;
    assert BitLen(c / 2) <= 3;
    assert BitLen(c) <= 4 && BitLen(b) <= 5 && BitLen(a) <= 6;
  }

  /**
   * The decoding loop with `k` bytes read: at most ten bytes (shift < 64), or IntOverflow. The value is
   * the exact sum; the word that holds it wraps (ReadVarint).
   */
  function Septets(s: Bytes, k: nat): (r: Result<(nat, nat), WireError>)
    ensures r.Ok? ==> 0 < r.value.1 <= |s|
  {
    if k >= 10 then Err(IntOverflow)
    else if s == [] then Err(UnexpectedEOF)
    else if s[0] < 128 then Ok((s[0], 1))
    else
      match Septets(s[1..], k + 1)
      case Err(e) => Err(e)
      case Ok((v, n)) => Ok((s[0] - 128 + 128 * v, n + 1))
  }

  /** The word read, and how many bytes it took. */
  function ReadVarint(s: Bytes): (r: Result<(uint64, nat), WireError>)
    ensures r.Ok? ==> 0 < r.value.1 <= |s|
  {
    match Septets(s, 0)
    case Err(e) => Err(e)
    case Ok((v, n)) => Ok((ToU64(v), n))
  }

  lemma {:induction false} VarintLength(v: nat, k: nat)
    requires v < Pow128(k)
    ensures k > 0 ==> |Varint(v)| <= k
  {
    if k <= 1 || v < 128 {
    } else {
      VarintLength(v / 128, k - 1);
    }
  }

  function Pow128(k: nat): (p: nat)
    ensures p > 0
  {
    if k == 0 then 1 else 128 * Pow128(k - 1)
  }

  lemma {:induction false} SeptetsOfVarint(v: nat, rest: Bytes, k: nat)
    requires k + |Varint(v)| <= 10
    ensures Septets(Varint(v) + rest, k) == Ok((v, |Varint(v)|))
  {
    var s := Varint(v) + rest;
    if v >= 128 {
      assert s[1..] == Varint(v / 128) + rest;
      SeptetsOfVarint(v / 128, rest, k + 1);
    } else {
      assert s[0] == v;
    }
  }

  /** Every 64-bit word takes at most ten bytes and is read back. */
  lemma ReadOfVarint(v: uint64, rest: Bytes)
    ensures |Varint(v)| <= 10
    ensures ReadVarint(Varint(v) + rest) == Ok((v, |Varint(v)|))
  {
    assert Pow128(10) > UINT64 by {
      assert Pow128(5) == 0x8_0000_0000;
      assert Pow128(10) == 128 * 128 * 128 * 128 * 128 * Pow128(5);
    }
    VarintLength(v, 10);
    SeptetsOfVarint(v, rest, 0);
  }

  /** The value of n bytes, added up as the loop does, least significant first. */
  function Total(s: Bytes, n: nat): nat
    requires n <= |s|
  {
    if n == 0 then 0 else Total(s, n - 1) + s[n - 1] % 128 * Pow128(n - 1)
  }

  /** A varint ends at byte n: that byte has its top bit clear, and all before it have it set. */
  predicate EndsAt(s: Bytes, n: nat) {
    0 < n <= |s| && s[n - 1] < 128 && forall i :: 0 <= i < n - 1 ==> s[i] >= 128
  }

  lemma {:induction false} SeptetsExactly(s: Bytes, k: nat, n: nat)
    requires EndsAt(s, n)
    ensures k + n <= 10 ==> Septets(s, k) == Ok((Low(s, n), n))
    ensures k + n > 10 ==> Septets(s, k).Err?
  {
    if n == 1 {
      if k < 10 {
        assert Low(s, 1) == s[0] + 128 * Low(s[1..], 0);
      }
    } else {
      assert EndsAt(s[1..], n - 1);
      SeptetsExactly(s[1..], k + 1, n - 1);
    }
  }

  /** The same value, added up from the other end. */
  function Low(s: Bytes, n: nat): nat
    requires n <= |s|
  {
    if n == 0 then 0 else s[0] % 128 + 128 * Low(s[1..], n - 1)
  }

  lemma {:induction false} LowIsSum(s: Bytes, n: nat)
    requires n <= |s|
    ensures Low(s, n) == Total(s, n)
  {
    if n == 0 {
    } else {
      LowIsSum(s[1..], n - 1);
      SumShift(s, n);
    }
  }

  lemma {:induction false} SumShift(s: Bytes, n: nat)
    requires 0 < n <= |s|
    ensures Total(s, n) == s[0] % 128 + 128 * Total(s[1..], n - 1)
  {
    if n == 1 {
      assert Total(s, 1) == Total(s, 0) + s[0] % 128 * Pow128(0);
    } else {
      SumShift(s, n - 1);
      var a, p := s[n - 1] % 128, Pow128(n - 2);
      assert s[1..][n - 2] == s[n - 1];
      assert a * (128 * p) == 128 * (a * p);
    }
  }

  lemma {:induction false} SeptetsEnd(s: Bytes, k: nat)
    requires Septets(s, k).Ok?
    ensures EndsAt(s, Septets(s, k).value.1) && k + Septets(s, k).value.1 <= 10
  {
    if s[0] < 128 {
    } else {
      SeptetsEnd(s[1..], k + 1);
      var n := Septets(s, k).value.1;
      assert forall i :: 0 < i < n - 1 ==> s[i] == s[1..][i - 1];
    }
  }

  /**
   * Any bytes at all, minimal or not: a varint is read exactly when it ends within ten bytes, and its value is
   * the sum of the low seven bits of each, wrapped to 64 bits.
   */
  lemma ReadVarintExactly(s: Bytes, n: nat)
    ensures EndsAt(s, n) && n <= 10 ==> ReadVarint(s) == Ok((ToU64(Total(s, n)), n))
    ensures ReadVarint(s).Ok? ==> EndsAt(s, ReadVarint(s).value.1) && ReadVarint(s).value.1 <= 10
    ensures ReadVarint(s).Err? ==> ReadVarint(s).error == if |s| < 10 then UnexpectedEOF else IntOverflow
  {
    if EndsAt(s, n) {
      SeptetsExactly(s, 0, n);
      LowIsSum(s, n);
    }
    if Septets(s, 0).Ok? {
      SeptetsEnd(s, 0);
    } else {
      SeptetsError(s, 0);
    }
  }

  lemma {:induction false} SeptetsError(s: Bytes, k: nat)
    requires Septets(s, k).Err? && k <= 10
    ensures Septets(s, k).error == if k + |s| < 10 then UnexpectedEOF else IntOverflow
  {
    if k == 10 || s == [] {
    } else {
      SeptetsError(s[1..], k + 1);
    }
  }

  lemma {:induction false} SeptetsPrefix(a: Bytes, b: Bytes, k: nat)
    requires Septets(a, k).Ok?
    ensures Septets(a + b, k) == Septets(a, k)
  {
    if a[0] < 128 {
    } else {
      assert (a + b)[1..] == a[1..] + b;
      SeptetsPrefix(a[1..], b, k + 1);
    }
  }

  // ---- Chunks ----

  /**
   * A length and that many bytes, read at offset pos of the buffer. An index past the largest int is
   * InvalidLength; an index past the end of the buffer is UnexpectedEOF.
   */
  function ReadChunk(s: Bytes, pos: nat): (r: Result<(Bytes, nat), WireError>)
    ensures r.Ok? ==> |r.value.0| < r.value.1 <= |s|
  {
    match ReadVarint(s)
    case Err(e) => Err(e)
    case Ok((v, n)) =>
      var length := ToInt64(v);
      if length < 0 || pos + n + length >= INT64 then Err(InvalidLength)
      else if n + length > |s| then Err(UnexpectedEOF)
      else Ok((s[n..n + length], n + length))
  }

  function Chunk(b: Bytes): (s: Bytes)
    ensures |s| > |b|
  {
    Varint(|b|) + b
  }

  lemma ReadOfChunk(b: Bytes, rest: Bytes, pos: nat)
    requires pos + |Chunk(b)| < INT64
    ensures ReadChunk(Chunk(b) + rest, pos) == Ok((b, |Chunk(b)|))
  {
    var s := Chunk(b) + rest;
    assert s == Varint(|b|) + (b + rest);
    ReadOfVarint(|b|, b + rest);
    assert s[|Varint(|b|)|..|Chunk(b)|] == b;
  }

  /** Any bytes: a chunk is what its length says, a length below zero or past the largest int is invalid, and a chunk ends inside the buffer. */
  lemma ChunkExactly(s: Bytes, pos: nat)
    ensures ReadVarint(s).Err? ==> ReadChunk(s, pos) == Err(ReadVarint(s).error)
    ensures ReadVarint(s).Ok? ==>
      var n, length, r := ReadVarint(s).value.1, ToInt64(ReadVarint(s).value.0), ReadChunk(s, pos);
      && (r == Err(InvalidLength) <==> length < 0 || pos + n + length >= INT64)
      && (r.Ok? <==> length >= 0 && pos + n + length < INT64 && n + length <= |s|)
      && (r.Ok? ==> r.value == (s[n..n + length], n + length))
      && (r.Err? ==> r.error in {InvalidLength, UnexpectedEOF})
  {
    hide ReadVarint;
  }

  lemma ChunkPrefix(a: Bytes, b: Bytes, pos: nat)
    requires ReadChunk(a, pos).Ok?
    ensures ReadChunk(a + b, pos) == ReadChunk(a, pos)
  {
    SeptetsPrefix(a, b, 0);
    var (c, k) := ReadChunk(a, pos).value;
    assert (a + b)[k - |c|..k] == a[k - |c|..k];
  }

  // ---- Skipping ----

  /** An index past the largest int turns negative. */
  function Jump(n: nat, pos: nat, depth: nat): Result<(nat, nat), WireError> {
    if pos + n >= INT64 then Err(InvalidLength) else Ok((n, depth))
  }

  /**
   * One turn of the skipHotstuff loop: how far the index moves and the new depth. The index may move
   * past the end of the buffer.
   */
  function SkipOne(s: Bytes, pos: nat, depth: nat): (r: Result<(nat, nat), WireError>)
    ensures r.Ok? ==> r.value.0 > 0
  {
    match ReadVarint(s)
    case Err(e) => Err(e)
    case Ok((wire, n)) =>
      match wire % 8
      case 0 =>
        (match ReadVarint(s[n..])
         case Err(e) => Err(e)
         case Ok((_, k)) => Ok((n + k, depth)))
      case 1 => Jump(n + 8, pos, depth)
      case 2 =>
        (match ReadVarint(s[n..])
         case Err(e) => Err(e)
         case Ok((v, k)) =>
           if ToInt64(v) < 0 then Err(InvalidLength) else Jump(n + k + ToInt64(v), pos, depth))
      case 3 => Ok((n, depth + 1))
      case 4 => if depth == 0 then Err(UnexpectedEndOfGroup) else Ok((n, depth - 1))
      case 5 => Jump(n + 4, pos, depth)
      case _ => Err(IllegalWireType)
  }

  /** skipHotstuff from offset pos with `depth` groups open: how far the index moves until none is. */
  function Skip(s: Bytes, pos: nat, depth: nat): (r: Result<nat, WireError>)
    ensures r.Ok? ==> r.value > 0
  {
    if s == [] then Err(UnexpectedEOF)
    else
      match SkipOne(s, pos, depth)
      case Err(e) => Err(e)
      case Ok((n, d)) =>
        if d == 0 then Ok(n)
        else if n >= |s| then Err(UnexpectedEOF)
        else
          match Skip(s[n..], pos + n, d)
          case Err(e) => Err(e)
          case Ok(k) => Ok(n + k)
  }

  lemma SkipOnePrefix(a: Bytes, b: Bytes, pos: nat, depth: nat)
    requires SkipOne(a, pos, depth).Ok?
    ensures SkipOne(a + b, pos, depth) == SkipOne(a, pos, depth)
  {
    SeptetsPrefix(a, b, 0);
    var n := ReadVarint(a).value.1;
    if ReadVarint(a).value.0 % 8 in {0, 2} {
      SeptetsPrefix(a[n..], b, 0);
      assert (a + b)[n..] == a[n..] + b;
    }
  }

  lemma {:induction false} SkipPrefix(a: Bytes, b: Bytes, pos: nat, depth: nat)
    requires Skip(a, pos, depth).Ok?
    ensures Skip(a + b, pos, depth) == Skip(a, pos, depth)
  {
    hide SkipOne;
    SkipOnePrefix(a, b, pos, depth);
    var (n, d) := SkipOne(a, pos, depth).value;
    if d == 0 {
    } else {
      assert (a + b)[n..] == a[n..] + b;
      SkipPrefix(a[n..], b, pos + n, d);
    }
  }

  lemma SkipOneAnywhere(s: Bytes, p: nat, q: nat, depth: nat)
    requires SkipOne(s, p, depth).Ok? && q + SkipOne(s, p, depth).value.0 < INT64
    ensures SkipOne(s, q, depth) == SkipOne(s, p, depth)
  {
  }

  lemma {:induction false} SkipBound(s: Bytes, pos: nat, depth: nat)
    requires Skip(s, pos, depth).Ok? && pos + |s| < INT64
    ensures pos + Skip(s, pos, depth).value < INT64
  {
    hide ReadVarint;
    var (n, d) := SkipOne(s, pos, depth).value;
    if d == 0 {
    } else {
      SkipBound(s[n..], pos + n, d);
    }
  }

  /** Inside the buffer the offset makes no difference. */
  lemma {:induction false} SkipAnywhere(s: Bytes, p: nat, q: nat, depth: nat)
    requires Skip(s, p, depth).Ok? && Skip(s, p, depth).value <= |s| && q + |s| < INT64
    ensures Skip(s, q, depth) == Skip(s, p, depth)
  {
    hide SkipOne;
    var (n, d) := SkipOne(s, p, depth).value;
    SkipOneAnywhere(s, p, q, depth);
    if d == 0 {
    } else {
      SkipAnywhere(s[n..], p + n, q + n, d);
    }
  }
}
