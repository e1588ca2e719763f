/** What printing and parsing a message mean together. */
module MessageLaws {
  import opened Basics
  import opened Wire
  import opened Messages

  // ---- Which fields are refused, and what the others mean ----

  /** A field is refused for its tag alone exactly when it ends a group, has no number, or has another kind's wire type. */
  lemma FieldRefusals(m: Any, s: Bytes, pos: nat)
    ensures ReadVarint(s).Err? ==> ParseField(m, s, pos) == Err(ReadVarint(s).error)
    ensures ReadVarint(s).Ok? ==>
      var num, wireType, r := ToInt32(ReadVarint(s).value.0 / 8), ReadVarint(s).value.0 % 8, ParseField(m, s, pos);
      var kind := KindOf(TypeOf(m), num);
      && (wireType == 4 ==> r == Err(EndGroup))
      && (wireType != 4 && num <= 0 ==> r == Err(IllegalTag))
      && (wireType != 4 && num > 0 && ((kind == Scalar && wireType != 0) || (kind in {Text, Nested} && wireType != 2)) ==>
            r == Err(WrongWireType))
      && (r.Ok? ==> num > 0 && wireType != 4 && (kind == Scalar ==> wireType == 0) && (kind in {Text, Nested} ==> wireType == 2))
  {
    hide ReadVarint, ReadChunk, Skip, Parse, KindOf, SetScalar, SetText, SetNested, SetUnrecognized, Target;
  }

  /** A field is taken exactly when its tag is fit for its kind and its payload is complete, nested messages all the way down. */
  lemma FieldAccepted(m: Any, s: Bytes, pos: nat)
    ensures ParseField(m, s, pos).Ok? <==>
      && ReadVarint(s).Ok?
      && var wire, n := ReadVarint(s).value.0, ReadVarint(s).value.1;
         var num, wireType, rest := ToInt32(wire / 8), wire % 8, s[n..];
         && num > 0 && wireType != 4
         && match KindOf(TypeOf(m), num)
            case Scalar => wireType == 0 && ReadVarint(rest).Ok?
            case Text => wireType == 2 && ReadChunk(rest, pos + n).Ok?
            case Nested =>
              wireType == 2 && ReadChunk(rest, pos + n).Ok? && Parse(Target(m, num), ReadChunk(rest, pos + n).value.0, 0).Ok?
            case Unknown => Skip(s, 0, 0).Ok? && Skip(s, 0, 0).value <= |s| && pos + Skip(s, 0, 0).value < INT64
  {
    hide ReadVarint, ReadChunk, Skip, Parse, KindOf, SetScalar, SetText, SetNested, SetUnrecognized, Target;
  }

  /** The number that a varint field of a message holds; a bool is 0 or 1. */
  function ScalarOf(m: Any, num: int): int
    requires KindOf(TypeOf(m), num) == Scalar
  {
    match m
    case OfProposal(p) => if num == 2 then p.round else p.timestamp
    case OfVote(p) => p.timestamp
    case OfVoteInfo(p) => if num == 1 then p.proposalRound else p.parentRound
    case OfTimeout(p) => if num == 2 then p.round else if num == 3 then p.parentRound else if num == 5 then p.index else p.timestamp
    case OfPacketMsg(p) => if num == 2 then p.channelId else if p.eof then 1 else 0
  }

  function TextOf(m: Any, num: int): Bytes
    requires KindOf(TypeOf(m), num) == Text
  {
    match m
    case OfMessage(p) => p.moduleName
    case OfProposal(p) =>
      if num == 1 then p.moduleName else if num == 3 then p.id else if num == 5 then p.pid else if num == 6 then p.pk
      else if num == 7 then p.signature else p.justify
    case OfVote(p) =>
      if num == 1 then p.moduleName else if num == 3 then p.commitInfo else if num == 5 then p.pid else if num == 6 then p.pk
      else p.signature
    case OfVoteInfo(p) => if num == 2 then p.proposalId else p.parentId
    case OfTimeout(p) =>
      if num == 1 then p.moduleName else if num == 4 then p.parentId else if num == 7 then p.pid else if num == 8 then p.pk
      else p.signature
    case OfPacketMsg(p) => if num == 1 then p.logId else if num == 3 then p.moduleName else p.data
  }

  /** Every field but this one, and what is unrecognized, is as it was. */
  ghost predicate OnlyField(m: Any, u: Any, num: int) {
    && TypeOf(u) == TypeOf(m) && Unrecognized(u) == Unrecognized(m)
    && (forall k :: k != num && KindOf(TypeOf(m), k) == Scalar ==> ScalarOf(u, k) == ScalarOf(m, k))
    && (forall k :: k != num && KindOf(TypeOf(m), k) == Text ==> TextOf(u, k) == TextOf(m, k))
    && (KindOf(TypeOf(m), num) != Nested ==> match m
        case OfMessage(p) => u.message.sum == p.sum
        case OfVote(p) => u.vote.voteInfo == p.voteInfo
        case OfPacket(p) => u.packet.packetMsg == p.packetMsg
        case _ => true)
  }

  /**
   * A varint field written in any way at all, as n bytes that end within ten, is read into its own field: a
   * bool is "not zero", an int32 keeps the low 32 bits of the sum, an int64 the low 64.
   */
  lemma ScalarRead(m: Any, tag: byte, v: Bytes, n: nat, rest: Bytes, pos: nat) returns (u: Any)
    requires 8 <= tag < 128 && tag % 8 == 0 && KindOf(TypeOf(m), tag / 8) == Scalar
    requires EndsAt(v, n) && n == |v| <= 10
    ensures Parse(m, [tag] + v + rest, pos) == Parse(u, rest, pos + 1 + n)
    ensures OnlyField(m, u, tag / 8)
    ensures var x, sum := ScalarOf(u, tag / 8), Total(v, n);
      if m.OfPacketMsg? && tag / 8 == 4 then x == (if sum % UINT64 == 0 then 0 else 1)
      else if m.OfPacketMsg? then -INT32 <= x < INT32 && (x - sum) % UINT32 == 0
      else -INT64 <= x < INT64 && (x - sum) % UINT64 == 0
  {
    hide *;
    var word := ToU64(Total(v, n));
    u := SetScalar(m, tag / 8, word);
    ScalarStored(m, tag / 8, Total(v, n));
    EndsOn(v, rest, n);
    ReadVarintExactly(v + rest, n);
    ScalarParsed(m, tag, v + rest, word, n, pos);
    assert [tag] + v + rest == [tag] + (v + rest);
    ParseTurn(m, [tag] + v, rest, pos, u);
  }

  lemma ScalarParsed(m: Any, tag: byte, s: Bytes, word: uint64, n: nat, pos: nat)
    requires 8 <= tag < 128 && tag % 8 == 0 && KindOf(TypeOf(m), tag / 8) == Scalar && ReadVarint(s) == Ok((word, n))
    ensures ParseField(m, [tag] + s, pos) == Ok((SetScalar(m, tag / 8, word), 1 + n))
  {
    hide Parse, ReadVarint, ReadChunk, Skip, SetScalar, SetText, SetNested, SetUnrecognized, Target, KindOf;
    ReadTag(tag, s);
  }

  lemma EndsOn(v: Bytes, rest: Bytes, n: nat)
    requires EndsAt(v, n) && n == |v|
    ensures EndsAt(v + rest, n) && Total(v + rest, n) == Total(v, n)
  {
    SumOn(v, rest, n);
  }

  lemma {:induction false} SumOn(v: Bytes, rest: Bytes, n: nat)
    requires n <= |v|
    ensures Total(v + rest, n) == Total(v, n)
  {
    if n == 0 {
    } else {
      SumOn(v, rest, n - 1);
    }
  }

  lemma ScalarStored(m: Any, num: int, sum: nat)
    requires KindOf(TypeOf(m), num) == Scalar
    ensures var u := SetScalar(m, num, ToU64(sum));
      && OnlyField(m, u, num)
      && var x := ScalarOf(u, num);
         if m.OfPacketMsg? && num == 4 then x == (if sum % UINT64 == 0 then 0 else 1)
         else if m.OfPacketMsg? then -INT32 <= x < INT32 && (x - sum) % UINT32 == 0
         else -INT64 <= x < INT64 && (x - sum) % UINT64 == 0
  {
    hide ToInt64, ToInt32;
    LowBitsKept(sum);
    LowBitsKept(ToU64(sum));
    Narrowed(sum);
  }

  lemma Narrowed(sum: nat)
    ensures ToInt64(ToU64(sum)) == ToInt64(sum) && ToInt32(ToU64(sum)) == ToInt32(sum)
  {
    var q := sum / UINT64;
    assert sum == ToU64(sum) + q * UINT32 * UINT32;
    Same(ToU64(sum), q * UINT32, UINT32);
  }

  lemma Same(x: nat, q: nat, m: nat)
    requires m > 0
    ensures (x + q * m) % m == x % m
  {
    Remainder(q + x / m, m, x % m);
    assert x + q * m == (q + x / m) * m + x % m;
  }

  /** A byte field is read into its own field, whatever it held. */
  lemma TextStored(m: Any, num: int, b: Bytes)
    requires KindOf(TypeOf(m), num) == Text
    ensures OnlyField(m, SetText(m, num, b), num) && TextOf(SetText(m, num, b), num) == b
  {
  }

  // ---- Parsing composes ----

  lemma FieldPrefix(m: Any, a: Bytes, b: Bytes, pos: nat)
    requires ParseField(m, a, pos).Ok?
    ensures ParseField(m, a + b, pos) == ParseField(m, a, pos)
  {
    hide ReadVarint, ReadChunk, Skip, Parse, SetScalar, SetText, SetNested, SetUnrecognized, Target, KindOf;
    VarintPrefix(a, b);
    var n := ReadVarint(a).value.1;
    assert (a + b)[n..] == a[n..] + b;
    match KindOf(TypeOf(m), ToInt32(ReadVarint(a).value.0 / 8)) {
      case Scalar =>
        VarintPrefix(a[n..], b);
      case Unknown =>
        SkipPrefix(a, b, 0, 0);
        assert (a + b)[..Skip(a, 0, 0).value] == a[..Skip(a, 0, 0).value];
      case _ =>
        ChunkPrefix(a[n..], b, pos + n);
    }
  }

  lemma VarintPrefix(a: Bytes, b: Bytes)
    requires ReadVarint(a).Ok?
    ensures ReadVarint(a + b) == ReadVarint(a)
  {
    SeptetsPrefix(a, b, 0);
  }

  /** Inside the buffer the offset makes no difference. */
  lemma FieldAnywhere(m: Any, s: Bytes, p: nat, q: nat)
    requires ParseField(m, s, p).Ok? && q + |s| < INT64
    ensures ParseField(m, s, q) == ParseField(m, s, p)
  {
    hide ReadVarint, Skip, Parse, SetScalar, SetText, SetNested, SetUnrecognized, Target, KindOf;
  }

  lemma {:induction false} ParseAnywhere(m: Any, s: Bytes, p: nat, q: nat)
    requires Parse(m, s, p).Ok? && q + |s| < INT64
    ensures Parse(m, s, q) == Parse(m, s, p)
    decreases |s|
  {
    hide ParseField;
    if s == [] {
    } else {
      FieldAnywhere(m, s, p, q);
      var (u, n) := ParseField(m, s, p).value;
      ParseAnywhere(u, s[n..], p + n, q + n);
    }
  }

  lemma ParseNone(m: Any, pos: nat)
    ensures Parse(m, [], pos) == Ok(m)
  {
  }

  lemma ParseFirst(m: Any, s: Bytes, pos: nat)
    requires s != []
    ensures Parse(m, s, pos) ==
      match ParseField(m, s, pos)
      case Err(e) => Err(e)
      case Ok(v) => Parse(v.0, s[v.1..], pos + v.1)
  {
    hide ParseField;
  }

  lemma {:induction false} ParseOn(m: Any, a: Bytes, b: Bytes, pos: nat)
    requires Parse(m, a, pos).Ok?
    ensures Parse(m, a + b, pos) == Parse(Parse(m, a, pos).value, b, pos + |a|)
    decreases |a|
  {
    hide ParseField, Parse;
    if a == [] {
      assert a + b == b;
      ParseNone(m, pos);
    } else {
      ParseFirst(m, a, pos);
      ParseFirst(m, a + b, pos);
      FieldPrefix(m, a, b, pos);
      var (u, n) := ParseField(m, a, pos).value;
      assert (a + b)[n..] == a[n..] + b;
      ParseOn(u, a[n..], b, pos + n);
    }
  }

  /**
   * When a parses, parsing a and b in one buffer is parsing b into what a gave: both succeed, with the
   * same message, or both fail.
   */
  lemma ParseComposes(m: Any, a: Bytes, b: Bytes)
    requires Parse(m, a, 0).Ok? && |a| + |b| < INT64
    ensures var u := Parse(m, a, 0).value;
      && Parse(m, a + b, 0) == Parse(u, b, |a|)
      && (Parse(m, a + b, 0).Ok? <==> Parse(u, b, 0).Ok?)
      && (Parse(u, b, 0).Ok? ==> Parse(m, a + b, 0) == Parse(u, b, 0))
  {
    ParseOn(m, a, b, 0);
    var u := Parse(m, a, 0).value;
    if Parse(u, b, 0).Ok? {
      ParseAnywhere(u, b, 0, |a|);
    } else if Parse(u, b, |a|).Ok? {
      ParseAnywhere(u, b, |a|, 0);
    }
  }

  // ---- Unknown fields ----

  /** The length of the field the bytes start with, if a message of this type keeps it as unrecognized. */
  function UnknownField(t: Type, s: Bytes): (r: Option<nat>)
    ensures r.Some? ==> 0 < r.value <= |s|
  {
    match ReadVarint(s)
    case Err(_) => None
    case Ok((wire, _)) =>
      if wire % 8 == 4 || ToInt32(wire / 8) <= 0 || KindOf(t, ToInt32(wire / 8)) != Unknown then None
      else
        match Skip(s, 0, 0)
        case Err(_) => None
        case Ok(k) => if k <= |s| then Some(k) else None
  }

  predicate Unknowns(t: Type, s: Bytes) {
    s == [] || (UnknownField(t, s).Some? && Unknowns(t, s[UnknownField(t, s).value..]))
  }

  lemma {:induction false} UnknownsAppend(t: Type, a: Bytes, b: Bytes)
    requires Unknowns(t, a) && Unknowns(t, b)
    ensures Unknowns(t, a + b)
  {
    if a == [] {
      assert a + b == b;
    } else {
      UnknownPrefix(t, a, b);
      hide UnknownField;
      var k := UnknownField(t, a).value;
      assert (a + b)[k..] == a[k..] + b;
      UnknownsAppend(t, a[k..], b);
    }
  }

  lemma UnknownPrefix(t: Type, a: Bytes, b: Bytes)
    requires UnknownField(t, a).Some?
    ensures UnknownField(t, a + b) == UnknownField(t, a)
  {
    hide ReadVarint, Skip;
    VarintPrefix(a, b);
    SkipPrefix(a, b, 0, 0);
  }

  /** The first field alone is a list of unknown fields. */
  lemma UnknownAlone(t: Type, s: Bytes)
    requires UnknownField(t, s).Some?
    ensures Unknowns(t, s[..UnknownField(t, s).value])
  {
    var k := UnknownField(t, s).value;
    var a := s[..k];
    assert a + s[k..] == s;
    UnknownCut(t, a, s[k..]);
  }

  lemma UnknownCut(t: Type, a: Bytes, b: Bytes)
    requires UnknownField(t, a + b) == Some(|a|)
    ensures UnknownField(t, a) == Some(|a|)
  {
    SkipCut(a, b, 0, 0);
    SeptetsCut(a, b, 0);
  }

  lemma {:induction false} SeptetsCut(a: Bytes, b: Bytes, k: nat)
    requires Septets(a + b, k).Ok? && Septets(a + b, k).value.1 <= |a|
    ensures Septets(a, k) == Septets(a + b, k)
  {
    if (a + b)[0] < 128 {
    } else {
      assert (a + b)[1..] == a[1..] + b;
      SeptetsCut(a[1..], b, k + 1);
    }
  }

  lemma {:induction false} SkipCut(a: Bytes, b: Bytes, pos: nat, depth: nat)
    requires Skip(a + b, pos, depth) == Ok(|a|)
    ensures Skip(a, pos, depth) == Ok(|a|)
  {
    hide SkipOne;
    SkipOneCut(a, b, pos, depth);
    var (n, d) := SkipOne(a + b, pos, depth).value;
    if d == 0 {
    } else {
      assert (a + b)[n..] == a[n..] + b;
      SkipCut(a[n..], b, pos + n, d);
    }
  }

  lemma SkipOneCut(a: Bytes, b: Bytes, pos: nat, depth: nat)
    requires SkipOne(a + b, pos, depth).Ok? && SkipOne(a + b, pos, depth).value.0 <= |a|
    ensures SkipOne(a, pos, depth) == SkipOne(a + b, pos, depth)
  {
    SeptetsCut(a, b, 0);
    var n := ReadVarint(a + b).value.1;
    if ReadVarint(a + b).value.0 % 8 in {0, 2} {
      assert (a + b)[n..] == a[n..] + b;
      SeptetsCut(a[n..], b, 0);
    }
  }

  // ---- One printed field is parsed back ----

  lemma {:induction false} ParseUnknowns(m: Any, s: Bytes, pos: nat)
    requires Unknowns(TypeOf(m), s) && pos + |s| < INT64
    ensures Parse(m, s, pos) == Ok(SetUnrecognized(m, Unrecognized(m) + s))
    decreases |s|
  {
    hide UnknownField, ParseField, SetUnrecognized, Unrecognized, TypeOf;
    if s == [] {
      assert Unrecognized(m) + s == Unrecognized(m);
    } else {
      var k := UnknownField(TypeOf(m), s).value;
      var u := SetUnrecognized(m, Unrecognized(m) + s[..k]);
      ParseUnknown(m, s, pos);
      ParseUnknowns(u, s[k..], pos + k);
      assert Unrecognized(m) + s[..k] + s[k..] == Unrecognized(m) + s;
      UnrecognizedTwice(m, Unrecognized(m) + s[..k], Unrecognized(m) + s);
    }
  }

  lemma ParseUnknown(m: Any, s: Bytes, pos: nat)
    requires UnknownField(TypeOf(m), s).Some? && pos + |s| < INT64
    ensures var k := UnknownField(TypeOf(m), s).value;
      ParseField(m, s, pos) == Ok((SetUnrecognized(m, Unrecognized(m) + s[..k]), k))
  {
    hide ReadVarint, Skip, KindOf, Parse, SetUnrecognized;
  }

  lemma UnrecognizedTwice(m: Any, a: Bytes, b: Bytes)
    ensures SetUnrecognized(SetUnrecognized(m, a), b) == SetUnrecognized(m, b)
  {
  }

  lemma ParseTurn(m: Any, a: Bytes, rest: Bytes, pos: nat, u: Any)
    requires a != [] && ParseField(m, a + rest, pos) == Ok((u, |a|))
    ensures Parse(m, a + rest, pos) == Parse(u, rest, pos + |a|)
  {
    hide ParseField;
    assert (a + rest)[|a|..] == rest;
  }

  /** A one-byte tag is read as its field number and wire type. */
  lemma ReadTag(tag: byte, rest: Bytes)
    requires tag < 128
    ensures ReadVarint([tag] + rest) == Ok((tag, 1)) && ([tag] + rest)[1..] == rest && ToInt32(tag / 8) == tag / 8
  {
    assert Septets([tag] + rest, 0) == Ok((tag, 1));
  }

  lemma TextStep(m: Any, tag: byte, b: Bytes, rest: Bytes, pos: nat) returns (u: Any, q: nat)
    requires 8 < tag < 128 && tag % 8 == 2 && KindOf(TypeOf(m), tag / 8) == Text
    requires pos + |TextField(tag, b) + rest| < INT64
    ensures u == (if b == [] then m else SetText(m, tag / 8, b)) && q == pos + |TextField(tag, b)|
    ensures Parse(m, TextField(tag, b) + rest, pos) == Parse(u, rest, q)
  {
    hide Parse, ReadVarint, ReadChunk, Skip, SetScalar, SetText, SetNested, SetUnrecognized, Target, KindOf, Chunk;
    u, q := if b == [] then m else SetText(m, tag / 8, b), pos + |TextField(tag, b)|;
    var s := TextField(tag, b) + rest;
    if b == [] {
      assert s == rest;
    } else {
      ReadTag(tag, Chunk(b) + rest);
      ReadOfChunk(b, rest, pos + 1);
      assert s == [tag] + (Chunk(b) + rest);
      ParseTurn(m, TextField(tag, b), rest, pos, u);
    }
  }

  lemma ScalarStep(m: Any, tag: byte, v: uint64, rest: Bytes, pos: nat) returns (u: Any, q: nat)
    requires 8 <= tag < 128 && tag % 8 == 0 && KindOf(TypeOf(m), tag / 8) == Scalar
    ensures u == (if v == 0 then m else SetScalar(m, tag / 8, v)) && q == pos + |ScalarField(tag, v)|
    ensures Parse(m, ScalarField(tag, v) + rest, pos) == Parse(u, rest, q)
  {
    hide Parse, ReadVarint, ReadChunk, Skip, SetScalar, SetText, SetNested, SetUnrecognized, Target, KindOf, Varint;
    u, q := if v == 0 then m else SetScalar(m, tag / 8, v), pos + |ScalarField(tag, v)|;
    var s := ScalarField(tag, v) + rest;
    if v == 0 {
      assert s == rest;
    } else {
      ReadTag(tag, Varint(v) + rest);
      ReadOfVarint(v, rest);
      assert s == [tag] + (Varint(v) + rest);
      ParseTurn(m, ScalarField(tag, v), rest, pos, u);
    }
  }

  lemma NestedStep(m: Any, tag: byte, b: Bytes, v: Any, rest: Bytes, pos: nat)
    requires 8 < tag < 128 && tag % 8 == 2 && KindOf(TypeOf(m), tag / 8) == Nested
    requires Parse(Target(m, tag / 8), b, 0) == Ok(v)
    requires pos + |NestedField(tag, b) + rest| < INT64
    ensures TypeOf(v) == TypeOf(Target(m, tag / 8))
    ensures Parse(m, NestedField(tag, b) + rest, pos) ==
      Parse(SetNested(m, tag / 8, v), rest, pos + |NestedField(tag, b)|)
  {
    hide Parse, ReadVarint, ReadChunk, Skip, SetScalar, SetText, SetNested, SetUnrecognized, Target, KindOf, Chunk;
    var s := NestedField(tag, b) + rest;
    ReadTag(tag, Chunk(b) + rest);
    ReadOfChunk(b, rest, pos + 1);
    assert s == [tag] + (Chunk(b) + rest);
    ParseTurn(m, NestedField(tag, b), rest, pos, SetNested(m, tag / 8, v));
  }
}
