/**
 * The loops of Unmarshal and skipHotstuff, with the moving index iNdEx, the shift counter and the depth
 * counter, proved equal to the parser over values. Every loop ends, and no index leaves the buffer.
 */
module Unmarshalling {
  import opened Basics
  import opened Wire
  import opened Messages

  /** What the varint loop still computes after k bytes, with their bits in `wire`. */
  function Accumulated(wire: nat, k: nat, rest: Result<(nat, nat), WireError>): Result<(nat, nat), WireError> {
    match rest
    case Err(e) => Err(e)
    case Ok(v) => Ok((wire + Pow128(k) * v.0, k + v.1))
  }

  /** uint64(b&0x7F) << shift, before it is cut to 64 bits. */
  function Bits(b: byte, k: nat): nat {
    b % 128 * Pow128(k)
  }

  /**
   * The varint loop, from index start; the result holds the word and the index after it. The bits of each
   * byte lie above every bit already read, so the source's `|=` is an addition.
   */
  method DecodeVarint(s: Bytes, start: nat) returns (r: Result<(uint64, nat), WireError>)
    requires start <= |s|
    ensures r ==
      match ReadVarint(s[start..])
      case Err(e) => Err(e)
      case Ok(v) => Ok((v.0, start + v.1))
  {
    hide Septets, Pow128;
    var wire: uint64 := 0;
    var shift, i := 0, start;
    FirstSeptet(s[start..]);
    while true
      invariant shift == 7 * (i - start) && start <= i <= |s| && i - start <= 10
      invariant i - start < 10 ==> wire < Pow128(i - start)
      invariant Septets(s[start..], 0) == Accumulated(wire, i - start, Septets(s[i..], i - start))
      decreases |s| - i
    {
      SeptetsStop(s[i..], i - start);
      if shift >= 64 {
        return Err(IntOverflow);
      }
      if i >= |s| {
        return Err(UnexpectedEOF);
      }
      var b := s[i];
      OneSeptet(s, i, i - start, wire);
      i := i + 1;
      wire := (wire + Bits(b, shift / 7)) % UINT64;
      if b < 128 {
        return Ok((wire, i));
      }
      shift := shift + 7;
    }
  }

  lemma FirstSeptet(s: Bytes)
    ensures Pow128(0) == 1 && Septets(s, 0) == Accumulated(0, 0, Septets(s, 0))
  {
  }

  lemma SeptetsStop(s: Bytes, k: nat)
    ensures k >= 10 ==> Septets(s, k) == Err(IntOverflow)
    ensures k < 10 && s == [] ==> Septets(s, k) == Err(UnexpectedEOF)
  {
  }

  /** One turn: the last byte completes the sum, and any other byte but the tenth keeps it below its shift. */
  lemma OneSeptet(s: Bytes, i: nat, k: nat, wire: nat)
    requires i < |s| && k < 10 && wire < Pow128(k)
    ensures var sum := wire + Bits(s[i], k);
      if s[i] < 128 then Accumulated(wire, k, Septets(s[i..], k)) == Ok((sum, k + 1))
      else
        && Accumulated(wire, k, Septets(s[i..], k)) == Accumulated(sum % UINT64, k + 1, Septets(s[i + 1..], k + 1))
        && (k < 9 ==> sum % UINT64 < Pow128(k + 1))
  {
    hide Septets, Pow128, Bits;
    SeptetsTurn(s, i, k);
    SeptetsStop(s[i + 1..], k + 1);
    BitsBelow(s[i], k, wire);
    BitsAbove(s[i], k, 0);
    if s[i] >= 128 && Septets(s[i + 1..], k + 1).Ok? {
      BitsAbove(s[i], k, Septets(s[i + 1..], k + 1).value.0);
    }
  }

  lemma BitsBelow(b: byte, k: nat, wire: nat)
    requires wire < Pow128(k)
    ensures k < 9 ==> wire + Bits(b, k) < Pow128(k + 1) && (wire + Bits(b, k)) % UINT64 == wire + Bits(b, k)
  {
    hide Pow128;
    ShiftedBound(wire, Pow128(k), b % 128);
    PowNext(k);
  }

  lemma BitsAbove(b: byte, k: nat, v: nat)
    ensures Pow128(k) * (b % 128 + 128 * v) == Bits(b, k) + Pow128(k + 1) * v
  {
    hide Pow128;
    Shifted(Pow128(k), b % 128, v);
    PowNext(k);
  }

  lemma SeptetsTurn(s: Bytes, i: nat, k: nat)
    requires i < |s| && k < 10
    ensures Septets(s[i..], k) ==
      if s[i] < 128 then Ok((s[i], 1))
      else
        match Septets(s[i + 1..], k + 1)
        case Err(e) => Err(e)
        case Ok(v) => Ok((s[i] % 128 + 128 * v.0, v.1 + 1))
  {
    assert s[i..][1..] == s[i + 1..];
  }

  lemma ShiftedBound(wire: nat, p: nat, a: nat)
    requires wire < p && a < 128
    ensures wire + a * p < 128 * p
  {
    assert 0 <= (127 - a) * p;
  }

  lemma Shifted(p: nat, a: nat, v: nat)
    ensures p * (a + 128 * v) == a * p + 128 * p * v
  {
    assert 128 * p * v == p * (128 * v);
  }

  lemma PowNext(k: nat)
    ensures Pow128(k + 1) == 128 * Pow128(k)
    ensures k < 9 ==> Pow128(k + 1) <= UINT64
  {
    if k < 9 {
      PowUp(k + 1, 9);
      PowIsShift();
    }
  }

  lemma {:induction false} PowUp(k: nat, n: nat)
    requires k <= n
    ensures Pow128(k) <= Pow128(n)
  {
    if k == n {
    } else {
      PowUp(k, n - 1);
    }
  }

  lemma PowIsShift()
    ensures Pow128(9) == 0x8000_0000_0000_0000
  {
    assert Pow128(4) == 0x1000_0000;
    assert Pow128(9) == 128 * 128 * 128 * 128 * 128 * Pow128(4);
  }

  /** skipHotstuff on its own slice. */
  method SkipField(s: Bytes) returns (r: Result<nat, WireError>)
    requires |s| < INT64
    ensures r == Skip(s, 0, 0)
  {
    hide SkipOne;
    var i, depth := 0, 0;
    assert s[0..] == s;
    while i < |s|
      invariant Skip(s, 0, 0) == if i > |s| then Err(UnexpectedEOF) else Onward(i, Skip(s[i..], i, depth))
      decreases |s| - i
    {
      var turn := SkipTurn(s, i, depth);
      match turn {
        case Err(e) =>
          return Err(e);
        case Ok((next, open)) =>
          if next <= |s| {
            assert s[i..][next - i..] == s[next..];
          }
          if open == 0 {
            return Ok(next);
          }
          i, depth := next, open;
      }
    }
    r := Err(UnexpectedEOF);
  }

  function Onward(i: nat, r: Result<nat, WireError>): Result<nat, WireError> {
    match r
    case Err(e) => Err(e)
    case Ok(k) => Ok(i + k)
  }

  /** The index is an int: past the largest it is negative. */
  function Advance(i: nat, depth: nat): Result<(nat, nat), WireError> {
    if ToInt64(i) < 0 then Err(InvalidLength) else Ok((ToInt64(i), depth))
  }

  /** The switch on the wire type: the new index, possibly past the end, and the new depth. */
  method SkipTurn(s: Bytes, i: nat, depth: nat) returns (r: Result<(nat, nat), WireError>)
    requires i < |s| < INT64
    ensures r ==
      match SkipOne(s[i..], i, depth)
      case Err(e) => Err(e)
      case Ok(v) => Ok((i + v.0, v.1))
  {
    hide ReadVarint;
    var tag := DecodeVarint(s, i);
    match tag {
      case Err(e) =>
        r := Err(e);
      case Ok((wire, at)) =>
        assert s[i..][at - i..] == s[at..];
        var wireType := wire % 8;
        if wireType == 0 {
          var ignored := DecodeVarint(s, at);
          r := match ignored
               case Err(e) => Err(e)
               case Ok(v) => Ok((v.1, depth));
        } else if wireType == 1 {
          r := Advance(at + 8, depth);
        } else if wireType == 2 {
          var size := DecodeVarint(s, at);
          match size {
            case Err(e) =>
              r := Err(e);
            case Ok((v, from)) =>
              var length := ToInt64(v);
              if length < 0 {
                return Err(InvalidLength);
              }
              r := Advance(from + length, depth);
          }
        } else if wireType == 3 {
          r := Ok((at, depth + 1));
        } else if wireType == 4 {
          r := if depth == 0 then Err(UnexpectedEndOfGroup) else Ok((at, depth - 1));
        } else if wireType == 5 {
          r := Advance(at + 4, depth);
        } else {
          r := Err(IllegalWireType);
        }
    }
  }

  /** A length and its bytes from index i: the bytes and the index after them. */
  method DecodeChunk(s: Bytes, i: nat) returns (r: Result<(Bytes, nat), WireError>)
    requires i <= |s| < INT64
    ensures r ==
      match ReadChunk(s[i..], i)
      case Err(e) => Err(e)
      case Ok(v) => Ok((v.0, i + v.1))
  {
    hide ReadVarint;
    var size := DecodeVarint(s, i);
    match size {
      case Err(e) =>
        r := Err(e);
      case Ok((v, from)) =>
        var length := ToInt64(v);
        if length < 0 {
          return Err(InvalidLength);
        }
        var postIndex := ToInt64(from + length);
        if postIndex < 0 {
          return Err(InvalidLength);
        }
        if postIndex > |s| {
          return Err(UnexpectedEOF);
        }
        assert s[from..postIndex] == s[i..][from - i..postIndex - i];
        r := Ok((s[from..postIndex], postIndex));
    }
  }

  /** Unmarshal into m. */
  method Unmarshal(m: Any, s: Bytes) returns (r: Result<Any, WireError>)
    requires |s| < INT64
    ensures r == Parse(m, s, 0)
    decreases |s|, 1
  {
    hide ParseField;
    var v, i := m, 0;
    assert s[0..] == s;
    while i < |s|
      invariant i <= |s|
      invariant Parse(m, s, 0) == Parse(v, s[i..], i)
    {
      var field := UnmarshalField(v, s, i);
      match field {
        case Err(e) =>
          return Err(e);
        case Ok((u, next)) =>
          assert s[i..][next - i..] == s[next..];
          v, i := u, next;
      }
    }
    r := Ok(v);
  }

  /** The body of the Unmarshal loop: the message after one field, and the index after it. */
  method UnmarshalField(m: Any, s: Bytes, preIndex: nat) returns (r: Result<(Any, nat), WireError>)
    requires preIndex < |s| < INT64
    ensures r ==
      match ParseField(m, s[preIndex..], preIndex)
      case Err(e) => Err(e)
      case Ok(v) => Ok((v.0, preIndex + v.1))
    decreases |s|, 0
  {
    hide ReadVarint, ReadChunk, Skip, Parse, KindOf, SetScalar, SetText, SetNested, Target, SetUnrecognized, Unrecognized;
    var rest := s[preIndex..];
    var tag := DecodeVarint(s, preIndex);
    if tag.Err? {
      return Err(tag.error);
    }
    var wire, i := tag.value.0, tag.value.1;
    assert rest[i - preIndex..] == s[i..];
    var fieldNum, wireType := ToInt32(wire / 8), wire % 8;
    if wireType == 4 {
      return Err(EndGroup);
    }
    if fieldNum <= 0 {
      return Err(IllegalTag);
    }
    match KindOf(TypeOf(m), fieldNum) {
      case Scalar =>
        if wireType != 0 {
          return Err(WrongWireType);
        }
        var v := DecodeVarint(s, i);
        r := match v
             case Err(e) => Err(e)
             case Ok((x, next)) => Ok((SetScalar(m, fieldNum, x), next));
      case Text =>
        if wireType != 2 {
          return Err(WrongWireType);
        }
        var b := DecodeChunk(s, i);
        r := match b
             case Err(e) => Err(e)
             case Ok((x, next)) => Ok((SetText(m, fieldNum, x), next));
      case Nested =>
        if wireType != 2 {
          return Err(WrongWireType);
        }
        var b := DecodeChunk(s, i);
        if b.Err? {
          return Err(b.error);
        }
        var v := Unmarshal(Target(m, fieldNum), b.value.0);
        r := match v
             case Err(e) => Err(e)
             case Ok(x) => Ok((SetNested(m, fieldNum, x), b.value.1));
      case Unknown =>
        var skippy := SkipField(rest);
        if skippy.Err? {
          return Err(skippy.error);
        }
        SkipBound(rest, 0, 0);
        var postIndex := ToInt64(preIndex + skippy.value);
        if postIndex < 0 {
          return Err(InvalidLength);
        }
        if postIndex > |s| {
          return Err(UnexpectedEOF);
        }
        assert rest[..skippy.value] == s[preIndex..postIndex];
        r := Ok((SetUnrecognized(m, Unrecognized(m) + s[preIndex..postIndex]), postIndex));
    }
  }
}
