/**
 * Printing and parsing undo each other. The general law is about merging: parsing a printed message into
 * another one is the field-by-field merge of the two, of which the round trip is the case of an empty
 * first message.
 */
module MessageRoundTrips {
  import opened Basics
  import opened Wire
  import opened Messages
  import opened MessageLaws

  // ---- Merging ----

  /** "Last One Wins" for a field that is printed only when it is not empty. */
  function Later(a: Bytes, b: Bytes): Bytes {
    if b == [] then a else b
  }

  function LaterInt(a: int64, b: int64): int64 {
    if b == 0 then a else b
  }

  function LaterInt32(a: int32, b: int32): int32 {
    if b == 0 then a else b
  }

  function MergeProposal(a: ProposalMessage, b: ProposalMessage): ProposalMessage {
    ProposalMessage(Later(a.moduleName, b.moduleName), LaterInt(a.round, b.round), Later(a.id, b.id),
      LaterInt(a.timestamp, b.timestamp), Later(a.pid, b.pid), Later(a.pk, b.pk), Later(a.signature, b.signature),
      Later(a.justify, b.justify), a.unrecognized + b.unrecognized)
  }

  function MergeVoteInfo(a: VoteInfo, b: VoteInfo): VoteInfo {
    VoteInfo(LaterInt(a.proposalRound, b.proposalRound), Later(a.proposalId, b.proposalId),
      LaterInt(a.parentRound, b.parentRound), Later(a.parentId, b.parentId), a.unrecognized + b.unrecognized)
  }

  /** A nested VoteInfo merges with the one already there. */
  function MergeInfoField(a: Option<VoteInfo>, b: Option<VoteInfo>): Option<VoteInfo> {
    if b.None? then a else Some(MergeVoteInfo(if a.Some? then a.value else NO_VOTE_INFO, b.value))
  }

  function MergeVote(a: VoteMessage, b: VoteMessage): VoteMessage {
    VoteMessage(Later(a.moduleName, b.moduleName), MergeInfoField(a.voteInfo, b.voteInfo), Later(a.commitInfo, b.commitInfo),
      LaterInt(a.timestamp, b.timestamp), Later(a.pid, b.pid), Later(a.pk, b.pk), Later(a.signature, b.signature),
      a.unrecognized + b.unrecognized)
  }

  function MergeTimeout(a: TimoutMessage, b: TimoutMessage): TimoutMessage {
    TimoutMessage(Later(a.moduleName, b.moduleName), LaterInt(a.round, b.round), LaterInt(a.parentRound, b.parentRound),
      Later(a.parentId, b.parentId), LaterInt(a.index, b.index), LaterInt(a.timestamp, b.timestamp), Later(a.pid, b.pid),
      Later(a.pk, b.pk), Later(a.signature, b.signature), a.unrecognized + b.unrecognized)
  }

  /** A oneof arm is replaced by a later one. */
  function MergeMessage(a: Message, b: Message): Message {
    Message(Later(a.moduleName, b.moduleName), if b.sum.NoSum? then a.sum else b.sum, a.unrecognized + b.unrecognized)
  }

  function MergePacketMsg(a: PacketMsg, b: PacketMsg): PacketMsg {
    PacketMsg(Later(a.logId, b.logId), LaterInt32(a.channelId, b.channelId), Later(a.moduleName, b.moduleName), a.eof || b.eof,
      Later(a.data, b.data), a.unrecognized + b.unrecognized)
  }

  function MergePacket(a: Packet, b: Packet): Packet {
    Packet(if b.packetMsg.None? then a.packetMsg else b.packetMsg, a.unrecognized + b.unrecognized)
  }

  function Merge(a: Any, b: Any): (m: Any)
    requires TypeOf(a) == TypeOf(b)
    ensures TypeOf(m) == TypeOf(a)
  {
    match b
    case OfMessage(p) => OfMessage(MergeMessage(a.message, p))
    case OfProposal(p) => OfProposal(MergeProposal(a.proposal, p))
    case OfVote(p) => OfVote(MergeVote(a.vote, p))
    case OfVoteInfo(p) => OfVoteInfo(MergeVoteInfo(a.info, p))
    case OfTimeout(p) => OfTimeout(MergeTimeout(a.timeout, p))
    case OfPacketMsg(p) => OfPacketMsg(MergePacketMsg(a.packetMsg, p))
    case OfPacket(p) => OfPacket(MergePacket(a.packet, p))
  }

  /** What a message holds as unrecognized is a list of fields its type does not know, at every level. */
  predicate WellFormed(m: Any) {
    && Unknowns(TypeOf(m), Unrecognized(m))
    && match m
       case OfMessage(p) =>
         (match p.sum
          case NoSum => true
          case SumProposal(q) => Unknowns(TProposal, q.unrecognized)
          case SumVote(q) => VoteWellFormed(q)
          case SumTimeout(q) => Unknowns(TTimeout, q.unrecognized))
       case OfVote(q) => VoteWellFormed(q)
       case OfPacket(p) => p.packetMsg.Some? ==> Unknowns(TPacketMsg, p.packetMsg.value.unrecognized)
       case _ => true
  }

  predicate VoteWellFormed(m: VoteMessage) {
    Unknowns(TVote, m.unrecognized) && (m.voteInfo.Some? ==> Unknowns(TVoteInfo, m.voteInfo.value.unrecognized))
  }

  // ---- One type at a time ----

  /** The second half of the merge: the fields after timestamp. */
  function MergeProposalTail(a: ProposalMessage, b: ProposalMessage): ProposalMessage {
    a.(pid := Later(a.pid, b.pid), pk := Later(a.pk, b.pk), signature := Later(a.signature, b.signature),
       justify := Later(a.justify, b.justify), unrecognized := a.unrecognized + b.unrecognized)
  }

  lemma ParseProposalTail(a: ProposalMessage, b: ProposalMessage, pos: nat)
    requires Unknowns(TProposal, b.unrecognized) && pos + |ProposalTail(b)| < INT64
    ensures Parse(OfProposal(a), ProposalTail(b), pos) == Ok(OfProposal(MergeProposalTail(a, b)))
  {
    hide Parse, TextField, ScalarField, Unknowns;
    var r4 := b.unrecognized;
    var r3 := TextField(0x42, b.justify) + r4;
    var r2 := TextField(0x3a, b.signature) + r3;
    var r1 := TextField(0x32, b.pk) + r2;
    var c, m, p: nat := a, OfProposal(a), pos;
    m, p := TextStep(m, 0x2a, b.pid, r1, p);
    c := c.(pid := Later(c.pid, b.pid));
    assert m == OfProposal(c);
    m, p := TextStep(m, 0x32, b.pk, r2, p);
    c := c.(pk := Later(c.pk, b.pk));
    assert m == OfProposal(c);
    m, p := TextStep(m, 0x3a, b.signature, r3, p);
    c := c.(signature := Later(c.signature, b.signature));
    assert m == OfProposal(c);
    m, p := TextStep(m, 0x42, b.justify, r4, p);
    c := c.(justify := Later(c.justify, b.justify));
    assert m == OfProposal(c);
    ParseUnknowns(m, r4, p);
  }

  lemma ParseProposal(a: ProposalMessage, b: ProposalMessage, pos: nat)
    requires Unknowns(TProposal, b.unrecognized) && pos + |ProposalBytes(b)| < INT64
    ensures Parse(OfProposal(a), ProposalBytes(b), pos) == Ok(OfProposal(MergeProposal(a, b)))
  {
    hide Parse, TextField, ScalarField, Unknowns, ProposalTail;
    ConversionsUndo(b.round);
    ConversionsUndo(b.timestamp);
    var r4 := ProposalTail(b);
    var r3 := ScalarField(0x20, ToU64(b.timestamp)) + r4;
    var r2 := TextField(0x1a, b.id) + r3;
    var r1 := ScalarField(0x10, ToU64(b.round)) + r2;
    var c, m, p: nat := a, OfProposal(a), pos;
    m, p := TextStep(m, 0x0a, b.moduleName, r1, p);
    c := c.(moduleName := Later(c.moduleName, b.moduleName));
    assert m == OfProposal(c);
    m, p := ScalarStep(m, 0x10, ToU64(b.round), r2, p);
    c := c.(round := LaterInt(c.round, b.round));
    assert m == OfProposal(c);
    m, p := TextStep(m, 0x1a, b.id, r3, p);
    c := c.(id := Later(c.id, b.id));
    assert m == OfProposal(c);
    m, p := ScalarStep(m, 0x20, ToU64(b.timestamp), r4, p);
    c := c.(timestamp := LaterInt(c.timestamp, b.timestamp));
    assert m == OfProposal(c);
    ParseProposalTail(c, b, p);
  }

  lemma ParseVoteInfo(a: VoteInfo, b: VoteInfo, pos: nat)
    requires Unknowns(TVoteInfo, b.unrecognized) && pos + |VoteInfoBytes(b)| < INT64
    ensures Parse(OfVoteInfo(a), VoteInfoBytes(b), pos) == Ok(OfVoteInfo(MergeVoteInfo(a, b)))
  {
    hide Parse, TextField, ScalarField, Unknowns;
    ConversionsUndo(b.proposalRound);
    ConversionsUndo(b.parentRound);
    var r4 := b.unrecognized;
    var r3 := TextField(0x22, b.parentId) + r4;
    var r2 := ScalarField(0x18, ToU64(b.parentRound)) + r3;
    var r1 := TextField(0x12, b.proposalId) + r2;
    var c, m, p: nat := a, OfVoteInfo(a), pos;
    m, p := ScalarStep(m, 0x08, ToU64(b.proposalRound), r1, p);
    c := c.(proposalRound := LaterInt(c.proposalRound, b.proposalRound));
    assert m == OfVoteInfo(c);
    m, p := TextStep(m, 0x12, b.proposalId, r2, p);
    c := c.(proposalId := Later(c.proposalId, b.proposalId));
    assert m == OfVoteInfo(c);
    m, p := ScalarStep(m, 0x18, ToU64(b.parentRound), r3, p);
    c := c.(parentRound := LaterInt(c.parentRound, b.parentRound));
    assert m == OfVoteInfo(c);
    m, p := TextStep(m, 0x22, b.parentId, r4, p);
    c := c.(parentId := Later(c.parentId, b.parentId));
    assert m == OfVoteInfo(c);
    ParseUnknowns(m, r4, p);
  }

  lemma VoteInfoStep(m: VoteMessage, i: Option<VoteInfo>, rest: Bytes, pos: nat)
    requires i.Some? ==> Unknowns(TVoteInfo, i.value.unrecognized)
    requires pos + |VoteInfoField(i) + rest| < INT64
    ensures Parse(OfVote(m), VoteInfoField(i) + rest, pos) ==
      Parse(OfVote(m.(voteInfo := MergeInfoField(m.voteInfo, i))), rest, pos + |VoteInfoField(i)|)
  {
    hide Parse, Unknowns, VoteInfoBytes, MergeVoteInfo;
    if i.None? {
      assert VoteInfoField(i) + rest == rest;
    } else {
      var target := if m.voteInfo.Some? then m.voteInfo.value else NO_VOTE_INFO;
      ParseVoteInfo(target, i.value, 0);
      NestedStep(OfVote(m), 0x12, VoteInfoBytes(i.value), OfVoteInfo(MergeVoteInfo(target, i.value)), rest, pos);
    }
  }

  /** The second half of the merge: the fields after timestamp. */
  function MergeVoteTail(a: VoteMessage, b: VoteMessage): VoteMessage {
    a.(pid := Later(a.pid, b.pid), pk := Later(a.pk, b.pk), signature := Later(a.signature, b.signature),
       unrecognized := a.unrecognized + b.unrecognized)
  }

  lemma ParseVoteTail(a: VoteMessage, b: VoteMessage, pos: nat)
    requires Unknowns(TVote, b.unrecognized) && pos + |VoteTail(b)| < INT64
    ensures Parse(OfVote(a), VoteTail(b), pos) == Ok(OfVote(MergeVoteTail(a, b)))
  {
    hide Parse, TextField, ScalarField, Unknowns;
    var r3 := b.unrecognized;
    var r2 := TextField(0x3a, b.signature) + r3;
    var r1 := TextField(0x32, b.pk) + r2;
    var c, m, p: nat := a, OfVote(a), pos;
    m, p := TextStep(m, 0x2a, b.pid, r1, p);
    c := c.(pid := Later(c.pid, b.pid));
    assert m == OfVote(c);
    m, p := TextStep(m, 0x32, b.pk, r2, p);
    c := c.(pk := Later(c.pk, b.pk));
    assert m == OfVote(c);
    m, p := TextStep(m, 0x3a, b.signature, r3, p);
    c := c.(signature := Later(c.signature, b.signature));
    assert m == OfVote(c);
    ParseUnknowns(m, r3, p);
  }

  lemma ParseVote(a: VoteMessage, b: VoteMessage, pos: nat)
    requires VoteWellFormed(b) && pos + |VoteBytes(b)| < INT64
    ensures Parse(OfVote(a), VoteBytes(b), pos) == Ok(OfVote(MergeVote(a, b)))
  {
    hide Parse, TextField, ScalarField, Unknowns, VoteTail, VoteInfoField;
    ConversionsUndo(b.timestamp);
    var r4 := VoteTail(b);
    var r3 := ScalarField(0x20, ToU64(b.timestamp)) + r4;
    var r2 := TextField(0x1a, b.commitInfo) + r3;
    var r1 := VoteInfoField(b.voteInfo) + r2;
    var c, m, p: nat := a, OfVote(a), pos;
    m, p := TextStep(m, 0x0a, b.moduleName, r1, p);
    c := c.(moduleName := Later(c.moduleName, b.moduleName));
    assert m == OfVote(c);
    VoteInfoStep(c, b.voteInfo, r2, p);
    c := c.(voteInfo := MergeInfoField(c.voteInfo, b.voteInfo));
    m, p := OfVote(c), p + |VoteInfoField(b.voteInfo)|;
    m, p := TextStep(m, 0x1a, b.commitInfo, r3, p);
    c := c.(commitInfo := Later(c.commitInfo, b.commitInfo));
    assert m == OfVote(c);
    m, p := ScalarStep(m, 0x20, ToU64(b.timestamp), r4, p);
    c := c.(timestamp := LaterInt(c.timestamp, b.timestamp));
    assert m == OfVote(c);
    ParseVoteTail(c, b, p);
  }

  /** The second half of the merge: the fields after parentId. */
  function MergeTimeoutTail(a: TimoutMessage, b: TimoutMessage): TimoutMessage {
    a.(index := LaterInt(a.index, b.index), timestamp := LaterInt(a.timestamp, b.timestamp), pid := Later(a.pid, b.pid),
       pk := Later(a.pk, b.pk), signature := Later(a.signature, b.signature),
       unrecognized := a.unrecognized + b.unrecognized)
  }

  lemma ParseTimeoutTail(a: TimoutMessage, b: TimoutMessage, pos: nat)
    requires Unknowns(TTimeout, b.unrecognized) && pos + |TimeoutTail(b)| < INT64
    ensures Parse(OfTimeout(a), TimeoutTail(b), pos) == Ok(OfTimeout(MergeTimeoutTail(a, b)))
  {
    hide Parse, TextField, ScalarField, Unknowns;
    ConversionsUndo(b.index);
    ConversionsUndo(b.timestamp);
    var r5 := b.unrecognized;
    var r4 := TextField(0x4a, b.signature) + r5;
    var r3 := TextField(0x42, b.pk) + r4;
    var r2 := TextField(0x3a, b.pid) + r3;
    var r1 := ScalarField(0x30, ToU64(b.timestamp)) + r2;
    var c, m, p: nat := a, OfTimeout(a), pos;
    m, p := ScalarStep(m, 0x28, ToU64(b.index), r1, p);
    c := c.(index := LaterInt(c.index, b.index));
    assert m == OfTimeout(c);
    m, p := ScalarStep(m, 0x30, ToU64(b.timestamp), r2, p);
    c := c.(timestamp := LaterInt(c.timestamp, b.timestamp));
    assert m == OfTimeout(c);
    m, p := TextStep(m, 0x3a, b.pid, r3, p);
    c := c.(pid := Later(c.pid, b.pid));
    assert m == OfTimeout(c);
    m, p := TextStep(m, 0x42, b.pk, r4, p);
    c := c.(pk := Later(c.pk, b.pk));
    assert m == OfTimeout(c);
    m, p := TextStep(m, 0x4a, b.signature, r5, p);
    c := c.(signature := Later(c.signature, b.signature));
    assert m == OfTimeout(c);
    ParseUnknowns(m, r5, p);
  }

  lemma ParseTimeout(a: TimoutMessage, b: TimoutMessage, pos: nat)
    requires Unknowns(TTimeout, b.unrecognized) && pos + |TimeoutBytes(b)| < INT64
    ensures Parse(OfTimeout(a), TimeoutBytes(b), pos) == Ok(OfTimeout(MergeTimeout(a, b)))
  {
    hide Parse, TextField, ScalarField, Unknowns, TimeoutTail;
    ConversionsUndo(b.round);
    ConversionsUndo(b.parentRound);
    var r4 := TimeoutTail(b);
    var r3 := TextField(0x22, b.parentId) + r4;
    var r2 := ScalarField(0x18, ToU64(b.parentRound)) + r3;
    var r1 := ScalarField(0x10, ToU64(b.round)) + r2;
    var c, m, p: nat := a, OfTimeout(a), pos;
    m, p := TextStep(m, 0x0a, b.moduleName, r1, p);
    c := c.(moduleName := Later(c.moduleName, b.moduleName));
    assert m == OfTimeout(c);
    m, p := ScalarStep(m, 0x10, ToU64(b.round), r2, p);
    c := c.(round := LaterInt(c.round, b.round));
    assert m == OfTimeout(c);
    m, p := ScalarStep(m, 0x18, ToU64(b.parentRound), r3, p);
    c := c.(parentRound := LaterInt(c.parentRound, b.parentRound));
    assert m == OfTimeout(c);
    m, p := TextStep(m, 0x22, b.parentId, r4, p);
    c := c.(parentId := Later(c.parentId, b.parentId));
    assert m == OfTimeout(c);
    ParseTimeoutTail(c, b, p);
  }

  lemma ParsePacketMsg(a: PacketMsg, b: PacketMsg, pos: nat)
    requires Unknowns(TPacketMsg, b.unrecognized) && pos + |PacketMsgBytes(b)| < INT64
    ensures Parse(OfPacketMsg(a), PacketMsgBytes(b), pos) == Ok(OfPacketMsg(MergePacketMsg(a, b)))
  {
    hide Parse, TextField, ScalarField, Unknowns;
    ConversionsUndo(b.channelId);
    var r5 := b.unrecognized;
    var r4 := TextField(0x2a, b.data) + r5;
    var r3 := ScalarField(0x20, if b.eof then 1 else 0) + r4;
    var r2 := TextField(0x1a, b.moduleName) + r3;
    var r1 := ScalarField(0x10, ToU64(b.channelId)) + r2;
    var c, m, p: nat := a, OfPacketMsg(a), pos;
    m, p := TextStep(m, 0x0a, b.logId, r1, p);
    c := c.(logId := Later(c.logId, b.logId));
    assert m == OfPacketMsg(c);
    m, p := ScalarStep(m, 0x10, ToU64(b.channelId), r2, p);
    c := c.(channelId := LaterInt32(c.channelId, b.channelId));
    assert m == OfPacketMsg(c);
    m, p := TextStep(m, 0x1a, b.moduleName, r3, p);
    c := c.(moduleName := Later(c.moduleName, b.moduleName));
    assert m == OfPacketMsg(c);
    m, p := ScalarStep(m, 0x20, if b.eof then 1 else 0, r4, p);
    c := c.(eof := c.eof || b.eof);
    assert m == OfPacketMsg(c);
    m, p := TextStep(m, 0x2a, b.data, r5, p);
    c := c.(data := Later(c.data, b.data));
    assert m == OfPacketMsg(c);
    ParseUnknowns(m, r5, p);
  }

  lemma SumStep(m: Message, s: Sum, rest: Bytes, pos: nat)
    requires WellFormed(OfMessage(Message([], s, [])))
    requires pos + |SumField(s) + rest| < INT64
    ensures Parse(OfMessage(m), SumField(s) + rest, pos) ==
      Parse(OfMessage(m.(sum := if s.NoSum? then m.sum else s)), rest, pos + |SumField(s)|)
  {
    hide Parse, Unknowns, ProposalBytes, VoteBytes, TimeoutBytes, MergeProposal, MergeVote, MergeTimeout;
    match s
    case NoSum =>
      assert SumField(s) + rest == rest;
    case SumProposal(q) =>
      ParseProposal(NO_PROPOSAL, q, 0);
      MergeEmpty(OfProposal(q));
      NestedStep(OfMessage(m), 0x12, ProposalBytes(q), OfProposal(q), rest, pos);
    case SumVote(q) =>
      ParseVote(NO_VOTE, q, 0);
      MergeEmpty(OfVote(q));
      NestedStep(OfMessage(m), 0x1a, VoteBytes(q), OfVote(q), rest, pos);
    case SumTimeout(q) =>
      ParseTimeout(NO_TIMEOUT, q, 0);
      MergeEmpty(OfTimeout(q));
      NestedStep(OfMessage(m), 0x22, TimeoutBytes(q), OfTimeout(q), rest, pos);
  }

  lemma PacketMsgStep(m: Packet, i: Option<PacketMsg>, rest: Bytes, pos: nat)
    requires i.Some? ==> Unknowns(TPacketMsg, i.value.unrecognized)
    requires pos + |PacketMsgField(i) + rest| < INT64
    ensures Parse(OfPacket(m), PacketMsgField(i) + rest, pos) ==
      Parse(OfPacket(m.(packetMsg := if i.None? then m.packetMsg else i)), rest, pos + |PacketMsgField(i)|)
  {
    hide Parse, Unknowns, PacketMsgBytes, MergePacketMsg;
    if i.None? {
      assert PacketMsgField(i) + rest == rest;
    } else {
      ParsePacketMsg(NO_PACKET_MSG, i.value, 0);
      MergeEmpty(OfPacketMsg(i.value));
      NestedStep(OfPacket(m), 0x1a, PacketMsgBytes(i.value), OfPacketMsg(i.value), rest, pos);
    }
  }

  /** Merging into an empty message gives the message. */
  lemma MergeEmpty(m: Any)
    ensures Merge(New(TypeOf(m)), m) == m
  {
    assert [] + Unrecognized(m) == Unrecognized(m);
    if m.OfVote? && m.vote.voteInfo.Some? {
      assert [] + m.vote.voteInfo.value.unrecognized == m.vote.voteInfo.value.unrecognized;
    }
  }

  // ---- The laws ----

  /** Parsing a printed message into another one is their merge, wherever in the buffer it is. */
  lemma ParsePrinted(a: Any, b: Any, pos: nat)
    requires TypeOf(a) == TypeOf(b) && WellFormed(b) && pos + |Print(b)| < INT64
    ensures Parse(a, Print(b), pos) == Ok(Merge(a, b))
  {
    hide Parse, Unknowns, TextField, SumField, PacketMsgField;
    match b
    case OfMessage(p) =>
      EmptyUnknowns();
      var r2 := p.unrecognized;
      var r1 := SumField(p.sum) + r2;
      var m, q := TextStep(a, 0x0a, p.moduleName, r1, pos);
      var c := a.message.(moduleName := Later(a.message.moduleName, p.moduleName));
      assert m == OfMessage(c);
      SumStep(c, p.sum, r2, q);
      ParseUnknowns(OfMessage(c.(sum := if p.sum.NoSum? then c.sum else p.sum)), r2, q + |SumField(p.sum)|);
    case OfProposal(p) => ParseProposal(a.proposal, p, pos);
    case OfVote(p) => ParseVote(a.vote, p, pos);
    case OfVoteInfo(p) => ParseVoteInfo(a.info, p, pos);
    case OfTimeout(p) => ParseTimeout(a.timeout, p, pos);
    case OfPacketMsg(p) => ParsePacketMsg(a.packetMsg, p, pos);
    case OfPacket(p) =>
      PacketMsgStep(a.packet, p.packetMsg, p.unrecognized, pos);
      var c := a.packet.(packetMsg := if p.packetMsg.None? then a.packet.packetMsg else p.packetMsg);
      ParseUnknowns(OfPacket(c), p.unrecognized, pos + |PacketMsgField(p.packetMsg)|);
  }

  /** Unmarshal(Marshal(m)) is m, for every message without unknown fields and every one that was parsed. */
  lemma RoundTrip(m: Any)
    requires WellFormed(m) && |Print(m)| < INT64
    ensures Parse(New(TypeOf(m)), Print(m), 0) == Ok(m)
  {
    hide Parse, Print, WellFormed, Merge;
    ParsePrinted(New(TypeOf(m)), m, 0);
    MergeEmpty(m);
  }

  /** Concatenating two printed messages merges them. */
  lemma ConcatenationMerges(a: Any, b: Any)
    requires TypeOf(a) == TypeOf(b) && WellFormed(a) && WellFormed(b) && |Print(a)| + |Print(b)| < INT64
    ensures Parse(New(TypeOf(a)), Print(a) + Print(b), 0) == Ok(Merge(a, b))
  {
    hide Parse, Print, WellFormed, Merge;
    RoundTrip(a);
    ParsePrinted(a, b, 0);
    ParseComposes(New(TypeOf(a)), Print(a), Print(b));
  }

  /** Different messages have different bytes. */
  lemma PrintIsInjective(a: Any, b: Any)
    requires TypeOf(a) == TypeOf(b) && WellFormed(a) && WellFormed(b) && |Print(a)| < INT64
    requires Print(a) == Print(b)
    ensures a == b
  {
    hide Parse, Print, WellFormed;
    RoundTrip(a);
    RoundTrip(b);
  }

  lemma {:induction false} ParsedIsWellFormed(m: Any, s: Bytes, pos: nat)
    requires WellFormed(m) && Parse(m, s, pos).Ok?
    ensures WellFormed(Parse(m, s, pos).value)
    decreases |s|, 1
  {
    hide ParseField, WellFormed;
    if s == [] {
    } else {
      FieldIsWellFormed(m, s, pos);
      var (u, n) := ParseField(m, s, pos).value;
      ParsedIsWellFormed(u, s[n..], pos + n);
    }
  }

  lemma {:induction false} FieldIsWellFormed(m: Any, s: Bytes, pos: nat)
    requires WellFormed(m) && ParseField(m, s, pos).Ok?
    ensures WellFormed(ParseField(m, s, pos).value.0)
    decreases |s|, 0
  {
    hide ReadVarint, ReadChunk, Skip, Parse, Unknowns;
    var (wire, n) := ReadVarint(s).value;
    var num := ToInt32(wire / 8);
    match KindOf(TypeOf(m), num) {
      case Nested =>
        var (b, k) := ReadChunk(s[n..], pos + n).value;
        assert WellFormed(Target(m, num)) by { EmptyUnknowns(); }
        ParsedIsWellFormed(Target(m, num), b, 0);
      case Unknown =>
        UnknownAlone(TypeOf(m), s);
        UnknownsAppend(TypeOf(m), Unrecognized(m), s[..Skip(s, 0, 0).value]);
      case _ =>
    }
  }

  lemma EmptyUnknowns()
    ensures forall t :: Unknowns(t, [])
  {
  }

  /** Whatever bytes a message was parsed from, printing it again gives bytes that parse to it. */
  lemma ReprintParses(t: Type, s: Bytes)
    requires Parse(New(t), s, 0).Ok? && |Print(Parse(New(t), s, 0).value)| < INT64
    ensures Parse(New(t), Print(Parse(New(t), s, 0).value), 0) == Parse(New(t), s, 0)
  {
    hide Parse, Print, WellFormed, New, TypeOf;
    NewWellFormed(t);
    ParsedIsWellFormed(New(t), s, 0);
    RoundTrip(Parse(New(t), s, 0).value);
  }

  lemma NewWellFormed(t: Type)
    ensures WellFormed(New(t))
  {
    EmptyUnknowns();
    hide Unknowns;
  }
}
