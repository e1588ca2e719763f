/**
 * The size functions and MarshalToSizedBuffer methods of pb/hotstuff.pb.go and pb/conn.pb.go: a buffer of
 * the exact size is filled backwards, last field first, each length written after the bytes it counts.
 */
module Marshalling {
  import opened Basics
  import opened Wire
  import opened Messages

  // ---- Size ----

  function TextSize(b: Bytes): nat {
    if |b| > 0 then 1 + |b| + Sov(|b|) else 0
  }

  function ScalarSize(v: uint64): nat {
    if v == 0 then 0 else 1 + Sov(v)
  }

  function NestedSize(size: nat): nat {
    1 + size + Sov(size)
  }

  function ProposalSize(m: ProposalMessage): nat {
    TextSize(m.moduleName) + ScalarSize(ToU64(m.round)) + TextSize(m.id) + ScalarSize(ToU64(m.timestamp)) + TextSize(m.pid)
    + TextSize(m.pk) + TextSize(m.signature) + TextSize(m.justify) + |m.unrecognized|
  }

  function VoteInfoSize(m: VoteInfo): nat {
    ScalarSize(ToU64(m.proposalRound)) + TextSize(m.proposalId) + ScalarSize(ToU64(m.parentRound)) + TextSize(m.parentId)
    + |m.unrecognized|
  }

  function VoteSize(m: VoteMessage): nat {
    TextSize(m.moduleName) + (if m.voteInfo.Some? then NestedSize(VoteInfoSize(m.voteInfo.value)) else 0)
    + TextSize(m.commitInfo) + ScalarSize(ToU64(m.timestamp)) + TextSize(m.pid) + TextSize(m.pk) + TextSize(m.signature)
    + |m.unrecognized|
  }

  function TimeoutSize(m: TimoutMessage): nat {
    TextSize(m.moduleName) + ScalarSize(ToU64(m.round)) + ScalarSize(ToU64(m.parentRound)) + TextSize(m.parentId)
    + ScalarSize(ToU64(m.index)) + ScalarSize(ToU64(m.timestamp)) + TextSize(m.pid) + TextSize(m.pk) + TextSize(m.signature)
    + |m.unrecognized|
  }

  function PacketMsgSize(m: PacketMsg): nat {
    TextSize(m.logId) + ScalarSize(ToU64(m.channelId)) + TextSize(m.moduleName) + (if m.eof then 2 else 0) + TextSize(m.data)
    + |m.unrecognized|
  }

  function SumSize(s: Sum): nat {
    match s
    case NoSum => 0
    case SumProposal(p) => NestedSize(ProposalSize(p))
    case SumVote(p) => NestedSize(VoteSize(p))
    case SumTimeout(p) => NestedSize(TimeoutSize(p))
  }

  function Size(m: Any): nat {
    match m
    case OfMessage(p) => TextSize(p.moduleName) + SumSize(p.sum) + |p.unrecognized|
    case OfProposal(p) => ProposalSize(p)
    case OfVote(p) => VoteSize(p)
    case OfVoteInfo(p) => VoteInfoSize(p)
    case OfTimeout(p) => TimeoutSize(p)
    case OfPacketMsg(p) => PacketMsgSize(p)
    case OfPacket(p) =>
      (if p.packetMsg.Some? then NestedSize(PacketMsgSize(p.packetMsg.value)) else 0) + |p.unrecognized|
  }

  lemma TextSizeExact(tag: byte, b: Bytes)
    ensures TextSize(b) == |TextField(tag, b)|
  {
    SovExact(|b|);
  }

  lemma ScalarSizeExact(tag: byte, v: uint64)
    ensures ScalarSize(v) == |ScalarField(tag, v)|
  {
    SovExact(v);
  }

  lemma EofSize()
    ensures ScalarSize(1) == 2 && ScalarSize(0) == 0
  {
    SovExact(1);
  }

  lemma ProposalSizeExact(m: ProposalMessage)
    ensures ProposalSize(m) == |ProposalBytes(m)|
  {
    hide Sov, TextField, ScalarField, TextSize, ScalarSize;
    TextSizeExact(0x0a, m.moduleName);
    ScalarSizeExact(0x10, ToU64(m.round));
    TextSizeExact(0x1a, m.id);
    ScalarSizeExact(0x20, ToU64(m.timestamp));
    TextSizeExact(0x2a, m.pid);
    TextSizeExact(0x32, m.pk);
    TextSizeExact(0x3a, m.signature);
    TextSizeExact(0x42, m.justify);
  }

  lemma VoteInfoSizeExact(m: VoteInfo)
    ensures VoteInfoSize(m) == |VoteInfoBytes(m)|
  {
    hide Sov, TextField, ScalarField, TextSize, ScalarSize;
    ScalarSizeExact(0x08, ToU64(m.proposalRound));
    TextSizeExact(0x12, m.proposalId);
    ScalarSizeExact(0x18, ToU64(m.parentRound));
    TextSizeExact(0x22, m.parentId);
  }

  lemma VoteSizeExact(m: VoteMessage)
    ensures VoteSize(m) == |VoteBytes(m)|
  {
    hide Sov, TextField, ScalarField, TextSize, ScalarSize;
    TextSizeExact(0x0a, m.moduleName);
    if m.voteInfo.Some? {
      VoteInfoSizeExact(m.voteInfo.value);
      SovExact(VoteInfoSize(m.voteInfo.value));
    }
    TextSizeExact(0x1a, m.commitInfo);
    ScalarSizeExact(0x20, ToU64(m.timestamp));
    TextSizeExact(0x2a, m.pid);
    TextSizeExact(0x32, m.pk);
    TextSizeExact(0x3a, m.signature);
  }

  lemma TimeoutSizeExact(m: TimoutMessage)
    ensures TimeoutSize(m) == |TimeoutBytes(m)|
  {
    hide Sov, TextField, ScalarField, TextSize, ScalarSize;
    TextSizeExact(0x0a, m.moduleName);
    ScalarSizeExact(0x10, ToU64(m.round));
    ScalarSizeExact(0x18, ToU64(m.parentRound));
    TextSizeExact(0x22, m.parentId);
    ScalarSizeExact(0x28, ToU64(m.index));
    ScalarSizeExact(0x30, ToU64(m.timestamp));
    TextSizeExact(0x3a, m.pid);
    TextSizeExact(0x42, m.pk);
    TextSizeExact(0x4a, m.signature);
  }

  lemma PacketMsgSizeExact(m: PacketMsg)
    ensures PacketMsgSize(m) == |PacketMsgBytes(m)|
  {
    hide Sov, TextField, ScalarField, TextSize, ScalarSize;
    TextSizeExact(0x0a, m.logId);
    ScalarSizeExact(0x10, ToU64(m.channelId));
    TextSizeExact(0x1a, m.moduleName);
    ScalarSizeExact(0x20, if m.eof then 1 else 0);
    EofSize();
    TextSizeExact(0x2a, m.data);
  }

  lemma SumSizeExact(s: Sum)
    ensures SumSize(s) == |SumField(s)|
  {
    hide Sov, ProposalSize, VoteSize, TimeoutSize, ProposalBytes, VoteBytes, TimeoutBytes;
    match s
    case NoSum =>
    case SumProposal(p) =>
      ProposalSizeExact(p);
      SovExact(ProposalSize(p));
    case SumVote(p) =>
      VoteSizeExact(p);
      SovExact(VoteSize(p));
    case SumTimeout(p) =>
      TimeoutSizeExact(p);
      SovExact(TimeoutSize(p));
  }

  /** Size is exact for every message. */
  lemma SizeExact(m: Any)
    ensures Size(m) == |Print(m)|
  {
    hide Sov, TextField, TextSize, SumSize, SumField, ProposalSize, VoteSize, TimeoutSize, VoteInfoSize, PacketMsgSize,
      ProposalBytes, VoteBytes, TimeoutBytes, VoteInfoBytes, PacketMsgBytes;
    match m
    case OfMessage(p) =>
      TextSizeExact(0x0a, p.moduleName);
      SumSizeExact(p.sum);
    case OfProposal(p) => ProposalSizeExact(p);
    case OfVote(p) => VoteSizeExact(p);
    case OfVoteInfo(p) => VoteInfoSizeExact(p);
    case OfTimeout(p) => TimeoutSizeExact(p);
    case OfPacketMsg(p) => PacketMsgSizeExact(p);
    case OfPacket(p) =>
      if p.packetMsg.Some? {
        PacketMsgSizeExact(p.packetMsg.value);
        SovExact(PacketMsgSize(p.packetMsg.value));
      }
  }

  // ---- Writing backwards ----

  lemma Concatenate(a: Bytes, b: Bytes, c: Bytes)
    ensures a + (b + c) == a + b + c
    ensures a == [] ==> a + b + c == b + c
  {
  }

  /** encodeVarintHotstuff: the varint ends just before offset. */
  method EncodeVarint(buf: array<byte>, offset: nat, v: uint64) returns (base: nat)
    requires |Varint(v)| <= offset <= buf.Length
    modifies buf
    ensures base == offset - |Varint(v)|
    ensures (forall k :: 0 <= k < base ==> buf[k] == old(buf[k])) && buf[base..] == Varint(v) + old(buf[offset..])
  {
    hide Varint, Sov, WithMore;
    SovExact(v);
    base := offset - Sov(v);
    var i, w: nat := base, v;
    ghost var was, all := buf[..], Varint(v);
    while w >= 128
      invariant base <= i < offset && Varint(w) == all[i - base..]
      invariant forall k :: base <= k < i ==> buf[k] == all[k - base]
      invariant forall k :: 0 <= k < base || offset <= k < buf.Length ==> buf[k] == was[k]
    {
      VarintTurn(w);
      buf[i] := WithMore(w);
      w := w / 128;
      i := i + 1;
    }
    VarintTurn(w);
    buf[i] := w;
    assert buf[base..] == all + was[offset..];
  }

  /** The lowest seven bits, with the bit that says more bytes follow. */
  function WithMore(w: nat): byte {
    w % 128 + 128
  }

  lemma VarintTurn(w: nat)
    ensures w < 128 ==> Varint(w) == [w]
    ensures w >= 128 ==> |Varint(w)| > 1 && Varint(w)[0] == WithMore(w) && Varint(w)[1..] == Varint(w / 128)
  {
  }

  /** i -= len(x), then copy(dAtA[i:], x). */
  method PutBytes(buf: array<byte>, i: nat, x: Bytes) returns (j: nat)
    requires |x| <= i <= buf.Length
    modifies buf
    ensures j == i - |x|
    ensures (forall k :: 0 <= k < j ==> buf[k] == old(buf[k])) && buf[j..] == x + old(buf[i..])
  {
    j := i - |x|;
    forall k | 0 <= k < |x| {
      buf[j + k] := x[k];
    }
  }

  /** The length and the tag of the bytes written last. */
  method PutPrefix(buf: array<byte>, i: nat, tag: byte, size: nat, ghost body: Bytes, ghost rest: Bytes) returns (j: nat)
    requires size == |body| < UINT64 && |NestedField(tag, body)| <= i + size && i <= buf.Length
    requires buf[i..] == body + rest
    modifies buf
    ensures j == i + size - |NestedField(tag, body)|
    ensures (forall k :: 0 <= k < j ==> buf[k] == old(buf[k])) && buf[j..] == NestedField(tag, body) + rest
  {
    j := EncodeVarint(buf, i, size);
    j := j - 1;
    ghost var after := buf[j + 1..];
    buf[j] := tag;
    assert buf[j..] == [tag] + after;
    assert [tag] + (Varint(size) + (body + rest)) == NestedField(tag, body) + rest;
  }

  /** A byte field, when it is not empty; `rest` and `tail` are what the buffer holds from i on. */
  method PutText(buf: array<byte>, i: nat, tag: byte, b: Bytes, ghost rest: Bytes, ghost tail: Bytes) returns (j: nat)
    requires |TextField(tag, b)| <= i <= buf.Length < UINT64 && buf[i..] == rest + tail
    modifies buf
    ensures j == i - |TextField(tag, b)|
    ensures (forall k :: 0 <= k < j ==> buf[k] == old(buf[k])) && buf[j..] == TextField(tag, b) + rest + tail
  {
    hide Chunk;
    j := i;
    Concatenate(TextField(tag, b), rest, tail);
    if |b| > 0 {
      j := PutBytes(buf, j, b);
      j := PutPrefix(buf, j, tag, |b|, b, rest + tail);
    }
  }

  /** A varint field, when it is not zero. */
  method PutScalar(buf: array<byte>, i: nat, tag: byte, v: uint64, ghost rest: Bytes, ghost tail: Bytes) returns (j: nat)
    requires |ScalarField(tag, v)| <= i <= buf.Length && buf[i..] == rest + tail
    modifies buf
    ensures j == i - |ScalarField(tag, v)|
    ensures (forall k :: 0 <= k < j ==> buf[k] == old(buf[k])) && buf[j..] == ScalarField(tag, v) + rest + tail
  {
    hide Varint;
    j := i;
    Concatenate(ScalarField(tag, v), rest, tail);
    if v != 0 {
      j := EncodeVarint(buf, j, v);
      j := j - 1;
      ghost var after := buf[j + 1..];
      buf[j] := tag;
      assert buf[j..] == [tag] + after;
      Concatenate([tag], Varint(v), rest + tail);
    }
  }

  method MarshalProposal(m: ProposalMessage, buf: array<byte>, hi: nat) returns (i: nat)
    requires |ProposalBytes(m)| <= hi <= buf.Length < UINT64
    modifies buf
    ensures i == hi - |ProposalBytes(m)|
    ensures (forall k :: 0 <= k < i ==> buf[k] == old(buf[k])) && buf[i..] == ProposalBytes(m) + old(buf[hi..])
  {
    hide TextField, ScalarField, NestedField;
    ghost var tail := buf[hi..];
    ghost var r := m.unrecognized;
    i := PutBytes(buf, hi, m.unrecognized);
    i := PutText(buf, i, 0x42, m.justify, r, tail);
    r := TextField(0x42, m.justify) + r;
    i := PutText(buf, i, 0x3a, m.signature, r, tail);
    r := TextField(0x3a, m.signature) + r;
    i := PutText(buf, i, 0x32, m.pk, r, tail);
    r := TextField(0x32, m.pk) + r;
    i := PutText(buf, i, 0x2a, m.pid, r, tail);
    r := TextField(0x2a, m.pid) + r;
    i := PutScalar(buf, i, 0x20, ToU64(m.timestamp), r, tail);
    r := ScalarField(0x20, ToU64(m.timestamp)) + r;
    i := PutText(buf, i, 0x1a, m.id, r, tail);
    r := TextField(0x1a, m.id) + r;
    i := PutScalar(buf, i, 0x10, ToU64(m.round), r, tail);
    r := ScalarField(0x10, ToU64(m.round)) + r;
    i := PutText(buf, i, 0x0a, m.moduleName, r, tail);
    r := TextField(0x0a, m.moduleName) + r;
  }

  method MarshalVoteInfo(m: VoteInfo, buf: array<byte>, hi: nat) returns (i: nat)
    requires |VoteInfoBytes(m)| <= hi <= buf.Length < UINT64
    modifies buf
    ensures i == hi - |VoteInfoBytes(m)|
    ensures (forall k :: 0 <= k < i ==> buf[k] == old(buf[k])) && buf[i..] == VoteInfoBytes(m) + old(buf[hi..])
  {
    hide TextField, ScalarField, NestedField;
    ghost var tail := buf[hi..];
    ghost var r := m.unrecognized;
    i := PutBytes(buf, hi, m.unrecognized);
    i := PutText(buf, i, 0x22, m.parentId, r, tail);
    r := TextField(0x22, m.parentId) + r;
    i := PutScalar(buf, i, 0x18, ToU64(m.parentRound), r, tail);
    r := ScalarField(0x18, ToU64(m.parentRound)) + r;
    i := PutText(buf, i, 0x12, m.proposalId, r, tail);
    r := TextField(0x12, m.proposalId) + r;
    i := PutScalar(buf, i, 0x08, ToU64(m.proposalRound), r, tail);
    r := ScalarField(0x08, ToU64(m.proposalRound)) + r;
  }

  method PutVoteInfo(buf: array<byte>, i: nat, info: Option<VoteInfo>, ghost rest: Bytes, ghost tail: Bytes) returns (j: nat)
    requires |VoteInfoField(info)| <= i <= buf.Length < UINT64 && buf[i..] == rest + tail
    modifies buf
    ensures j == i - |VoteInfoField(info)|
    ensures (forall k :: 0 <= k < j ==> buf[k] == old(buf[k])) && buf[j..] == VoteInfoField(info) + rest + tail
  {
    hide VoteInfoBytes, Varint;
    j := i;
    Concatenate(VoteInfoField(info), rest, tail);
    match info {
      case None =>
      case Some(v) =>
        j := MarshalVoteInfo(v, buf, i);
        j := PutPrefix(buf, j, 0x12, i - j, VoteInfoBytes(v), rest + tail);
    }
  }

  method MarshalVote(m: VoteMessage, buf: array<byte>, hi: nat) returns (i: nat)
    requires |VoteBytes(m)| <= hi <= buf.Length < UINT64
    modifies buf
    ensures i == hi - |VoteBytes(m)|
    ensures (forall k :: 0 <= k < i ==> buf[k] == old(buf[k])) && buf[i..] == VoteBytes(m) + old(buf[hi..])
  {
    hide TextField, ScalarField, NestedField;
    ghost var tail := buf[hi..];
    ghost var r := m.unrecognized;
    i := PutBytes(buf, hi, m.unrecognized);
    i := PutText(buf, i, 0x3a, m.signature, r, tail);
    r := TextField(0x3a, m.signature) + r;
    i := PutText(buf, i, 0x32, m.pk, r, tail);
    r := TextField(0x32, m.pk) + r;
    i := PutText(buf, i, 0x2a, m.pid, r, tail);
    r := TextField(0x2a, m.pid) + r;
    i := PutScalar(buf, i, 0x20, ToU64(m.timestamp), r, tail);
    r := ScalarField(0x20, ToU64(m.timestamp)) + r;
    i := PutText(buf, i, 0x1a, m.commitInfo, r, tail);
    r := TextField(0x1a, m.commitInfo) + r;
    i := PutVoteInfo(buf, i, m.voteInfo, r, tail);
    r := VoteInfoField(m.voteInfo) + r;
    i := PutText(buf, i, 0x0a, m.moduleName, r, tail);
    r := TextField(0x0a, m.moduleName) + r;
  }

  method MarshalTimeout(m: TimoutMessage, buf: array<byte>, hi: nat) returns (i: nat)
    requires |TimeoutBytes(m)| <= hi <= buf.Length < UINT64
    modifies buf
    ensures i == hi - |TimeoutBytes(m)|
    ensures (forall k :: 0 <= k < i ==> buf[k] == old(buf[k])) && buf[i..] == TimeoutBytes(m) + old(buf[hi..])
  {
    hide TextField, ScalarField, NestedField;
    ghost var tail := buf[hi..];
    ghost var r := m.unrecognized;
    i := PutBytes(buf, hi, m.unrecognized);
    i := PutText(buf, i, 0x4a, m.signature, r, tail);
    r := TextField(0x4a, m.signature) + r;
    i := PutText(buf, i, 0x42, m.pk, r, tail);
    r := TextField(0x42, m.pk) + r;
    i := PutText(buf, i, 0x3a, m.pid, r, tail);
    r := TextField(0x3a, m.pid) + r;
    i := PutScalar(buf, i, 0x30, ToU64(m.timestamp), r, tail);
    r := ScalarField(0x30, ToU64(m.timestamp)) + r;
    i := PutScalar(buf, i, 0x28, ToU64(m.index), r, tail);
    r := ScalarField(0x28, ToU64(m.index)) + r;
    i := PutText(buf, i, 0x22, m.parentId, r, tail);
    r := TextField(0x22, m.parentId) + r;
    i := PutScalar(buf, i, 0x18, ToU64(m.parentRound), r, tail);
    r := ScalarField(0x18, ToU64(m.parentRound)) + r;
    i := PutScalar(buf, i, 0x10, ToU64(m.round), r, tail);
    r := ScalarField(0x10, ToU64(m.round)) + r;
    i := PutText(buf, i, 0x0a, m.moduleName, r, tail);
    r := TextField(0x0a, m.moduleName) + r;
  }

  /** The bool is one byte of its own, not a varint call. */
  method PutEof(buf: array<byte>, i: nat, eof: bool, ghost rest: Bytes, ghost tail: Bytes) returns (j: nat)
    requires |ScalarField(0x20, if eof then 1 else 0)| <= i <= buf.Length && buf[i..] == rest + tail
    modifies buf
    ensures j == i - |ScalarField(0x20, if eof then 1 else 0)|
    ensures (forall k :: 0 <= k < j ==> buf[k] == old(buf[k])) && buf[j..] == ScalarField(0x20, if eof then 1 else 0) + rest + tail
  {
    j := i;
    if eof {
      assert ScalarField(0x20, 1) == [0x20, 1];
      j := PutBytes(buf, j, [1]);
      j := PutBytes(buf, j, [0x20]);
      assert [0x20] + ([1] + (rest + tail)) == [0x20, 1] + rest + tail;
    } else {
      assert ScalarField(0x20, 0) + rest + tail == rest + tail;
    }
  }

  method MarshalPacketMsg(m: PacketMsg, buf: array<byte>, hi: nat) returns (i: nat)
    requires |PacketMsgBytes(m)| <= hi <= buf.Length < UINT64
    modifies buf
    ensures i == hi - |PacketMsgBytes(m)|
    ensures (forall k :: 0 <= k < i ==> buf[k] == old(buf[k])) && buf[i..] == PacketMsgBytes(m) + old(buf[hi..])
  {
    hide TextField, ScalarField, NestedField;
    ghost var tail := buf[hi..];
    ghost var r := m.unrecognized;
    i := PutBytes(buf, hi, m.unrecognized);
    i := PutText(buf, i, 0x2a, m.data, r, tail);
    r := TextField(0x2a, m.data) + r;
    i := PutEof(buf, i, m.eof, r, tail);
    r := ScalarField(0x20, if m.eof then 1 else 0) + r;
    i := PutText(buf, i, 0x1a, m.moduleName, r, tail);
    r := TextField(0x1a, m.moduleName) + r;
    i := PutScalar(buf, i, 0x10, ToU64(m.channelId), r, tail);
    r := ScalarField(0x10, ToU64(m.channelId)) + r;
    i := PutText(buf, i, 0x0a, m.logId, r, tail);
    r := TextField(0x0a, m.logId) + r;
  }

  /** The arm of a oneof, written as the nested message, its length and its tag. */
  method MarshalSum(s: Sum, buf: array<byte>, i: nat, ghost rest: Bytes, ghost tail: Bytes) returns (j: nat)
    requires |SumField(s)| <= i <= buf.Length < UINT64 && buf[i..] == rest + tail
    modifies buf
    ensures j == i - |SumField(s)|
    ensures (forall k :: 0 <= k < j ==> buf[k] == old(buf[k])) && buf[j..] == SumField(s) + rest + tail
  {
    hide ProposalBytes, VoteBytes, TimeoutBytes, Varint;
    j := i;
    Concatenate(SumField(s), rest, tail);
    match s {
      case NoSum =>
      case SumProposal(p) =>
        j := MarshalProposal(p, buf, i);
        j := PutPrefix(buf, j, 0x12, i - j, ProposalBytes(p), rest + tail);
      case SumVote(p) =>
        j := MarshalVote(p, buf, i);
        j := PutPrefix(buf, j, 0x1a, i - j, VoteBytes(p), rest + tail);
      case SumTimeout(p) =>
        j := MarshalTimeout(p, buf, i);
        j := PutPrefix(buf, j, 0x22, i - j, TimeoutBytes(p), rest + tail);
    }
  }

  method MarshalMessage(m: Message, buf: array<byte>, hi: nat) returns (i: nat)
    requires |MessageBytes(m)| <= hi <= buf.Length < UINT64
    modifies buf
    ensures i == hi - |MessageBytes(m)|
    ensures (forall k :: 0 <= k < i ==> buf[k] == old(buf[k])) && buf[i..] == MessageBytes(m) + old(buf[hi..])
  {
    hide TextField, SumField, SumSize;
    ghost var tail := buf[hi..];
    i := PutBytes(buf, hi, m.unrecognized);
    var size := SumSize(m.sum);
    SumSizeExact(m.sum);
    var j := MarshalSum(m.sum, buf, i, m.unrecognized, tail);
    i := i - size;
    i := PutText(buf, i, 0x0a, m.moduleName, SumField(m.sum) + m.unrecognized, tail);
  }

  method MarshalPacket(m: Packet, buf: array<byte>, hi: nat) returns (i: nat)
    requires |PacketBytes(m)| <= hi <= buf.Length < UINT64
    modifies buf
    ensures i == hi - |PacketBytes(m)|
    ensures (forall k :: 0 <= k < i ==> buf[k] == old(buf[k])) && buf[i..] == PacketBytes(m) + old(buf[hi..])
  {
    hide PacketMsgBytes, Varint;
    ghost var tail := buf[hi..];
    Concatenate(PacketMsgField(m.packetMsg), m.unrecognized, tail);
    i := PutBytes(buf, hi, m.unrecognized);
    match m.packetMsg {
      case None =>
      case Some(p) =>
        var j := MarshalPacketMsg(p, buf, i);
        i := PutPrefix(buf, j, 0x1a, i - j, PacketMsgBytes(p), m.unrecognized + tail);
    }
  }

  /** MarshalToSizedBuffer: the bytes end at hi. */
  method MarshalToSizedBuffer(m: Any, buf: array<byte>, hi: nat) returns (i: nat)
    requires |Print(m)| <= hi <= buf.Length < UINT64
    modifies buf
    ensures i == hi - |Print(m)|
    ensures (forall k :: 0 <= k < i ==> buf[k] == old(buf[k])) && buf[i..] == Print(m) + old(buf[hi..])
  {
    hide MessageBytes, ProposalBytes, VoteBytes, VoteInfoBytes, TimeoutBytes, PacketMsgBytes, PacketBytes;
    match m {
      case OfMessage(p) => i := MarshalMessage(p, buf, hi);
      case OfProposal(p) => i := MarshalProposal(p, buf, hi);
      case OfVote(p) => i := MarshalVote(p, buf, hi);
      case OfVoteInfo(p) => i := MarshalVoteInfo(p, buf, hi);
      case OfTimeout(p) => i := MarshalTimeout(p, buf, hi);
      case OfPacketMsg(p) => i := MarshalPacketMsg(p, buf, hi);
      case OfPacket(p) => i := MarshalPacket(p, buf, hi);
    }
  }

  /** Marshal: a buffer of exactly Size bytes is filled down to offset 0. */
  method Marshal(m: Any) returns (bytes: Bytes)
    requires Size(m) < INT64
    ensures bytes == Print(m)
  {
    hide Size, Print;
    SizeExact(m);
    var size := Size(m);
    var buf := new byte[size];
    var i := MarshalToSizedBuffer(m, buf, size);
    assert i == 0;
    bytes := buf[i..];
  }
}
