/**
 * The messages of pb/hotstuff.proto and pb/conn.proto: their printed form, and their parser over values.
 * An absent byte string and an empty one are not distinguished.
 */
module Messages {
  import opened Basics
  import opened Wire

  datatype ProposalMessage = ProposalMessage(
    moduleName: Bytes, round: int64, id: Bytes, timestamp: int64, pid: Bytes, pk: Bytes, signature: Bytes, justify: Bytes,
    unrecognized: Bytes)

  datatype VoteInfo = VoteInfo(proposalRound: int64, proposalId: Bytes, parentRound: int64, parentId: Bytes, unrecognized: Bytes)

  datatype VoteMessage = VoteMessage(
    moduleName: Bytes, voteInfo: Option<VoteInfo>, commitInfo: Bytes, timestamp: int64, pid: Bytes, pk: Bytes, signature: Bytes,
    unrecognized: Bytes)

  datatype TimoutMessage = TimoutMessage(
    moduleName: Bytes, round: int64, parentRound: int64, parentId: Bytes, index: int64, timestamp: int64,
    pid: Bytes, pk: Bytes, signature: Bytes, unrecognized: Bytes)

  datatype Sum = NoSum | SumProposal(proposal: ProposalMessage) | SumVote(vote: VoteMessage) | SumTimeout(timeout: TimoutMessage)

  datatype Message = Message(moduleName: Bytes, sum: Sum, unrecognized: Bytes)

  datatype PacketMsg = PacketMsg(logId: Bytes, channelId: int32, moduleName: Bytes, eof: bool, data: Bytes, unrecognized: Bytes)

  datatype Packet = Packet(packetMsg: Option<PacketMsg>, unrecognized: Bytes)

  const NO_PROPOSAL := ProposalMessage([], 0, [], 0, [], [], [], [], [])
  const NO_VOTE_INFO := VoteInfo(0, [], 0, [], [])
  const NO_VOTE := VoteMessage([], None, [], 0, [], [], [], [])
  const NO_TIMEOUT := TimoutMessage([], 0, 0, [], 0, 0, [], [], [], [])
  const NO_MESSAGE := Message([], NoSum, [])
  const NO_PACKET_MSG := PacketMsg([], 0, [], false, [], [])
  const NO_PACKET := Packet(None, [])

  /** A message of any of the seven types. */
  datatype Any =
    | OfMessage(message: Message) | OfProposal(proposal: ProposalMessage) | OfVote(vote: VoteMessage) | OfVoteInfo(info: VoteInfo)
    | OfTimeout(timeout: TimoutMessage) | OfPacketMsg(packetMsg: PacketMsg) | OfPacket(packet: Packet)

  datatype Type = TMessage | TProposal | TVote | TVoteInfo | TTimeout | TPacketMsg | TPacket

  function TypeOf(m: Any): Type {
    match m
    case OfMessage(_) => TMessage
    case OfProposal(_) => TProposal
    case OfVote(_) => TVote
    case OfVoteInfo(_) => TVoteInfo
    case OfTimeout(_) => TTimeout
    case OfPacketMsg(_) => TPacketMsg
    case OfPacket(_) => TPacket
  }

  function New(t: Type): (m: Any)
    ensures TypeOf(m) == t
  {
    match t
    case TMessage => OfMessage(NO_MESSAGE)
    case TProposal => OfProposal(NO_PROPOSAL)
    case TVote => OfVote(NO_VOTE)
    case TVoteInfo => OfVoteInfo(NO_VOTE_INFO)
    case TTimeout => OfTimeout(NO_TIMEOUT)
    case TPacketMsg => OfPacketMsg(NO_PACKET_MSG)
    case TPacket => OfPacket(NO_PACKET)
  }

  // ---- The field switch of each Unmarshal ----

  datatype Kind = Unknown | Scalar | Text | Nested

  function KindOf(t: Type, num: int): Kind {
    match t
    case TMessage => if num == 1 then Text else if num in {2, 3, 4} then Nested else Unknown
    case TProposal => if num in {1, 3, 5, 6, 7, 8} then Text else if num in {2, 4} then Scalar else Unknown
    case TVote => if num in {1, 3, 5, 6, 7} then Text else if num == 2 then Nested else if num == 4 then Scalar else Unknown
    case TVoteInfo => if num in {2, 4} then Text else if num in {1, 3} then Scalar else Unknown
    case TTimeout => if num in {1, 4, 7, 8, 9} then Text else if num in {2, 3, 5, 6} then Scalar else Unknown
    case TPacketMsg => if num in {1, 3, 5} then Text else if num in {2, 4} then Scalar else Unknown
    case TPacket => if num == 3 then Nested else Unknown
  }

  /** A varint field: int64 and int32 keep the low bits, a bool is "not zero". */
  function SetScalar(m: Any, num: int, v: uint64): (u: Any)
    requires KindOf(TypeOf(m), num) == Scalar
    ensures TypeOf(u) == TypeOf(m)
  {
    match m
    case OfProposal(p) => OfProposal(if num == 2 then p.(round := ToInt64(v)) else p.(timestamp := ToInt64(v)))
    case OfVote(p) => OfVote(p.(timestamp := ToInt64(v)))
    case OfVoteInfo(p) => OfVoteInfo(if num == 1 then p.(proposalRound := ToInt64(v)) else p.(parentRound := ToInt64(v)))
    case OfTimeout(p) =>
      OfTimeout(if num == 2 then p.(round := ToInt64(v)) else if num == 3 then p.(parentRound := ToInt64(v))
                else if num == 5 then p.(index := ToInt64(v)) else p.(timestamp := ToInt64(v)))
    case OfPacketMsg(p) => OfPacketMsg(if num == 2 then p.(channelId := ToInt32(v)) else p.(eof := v != 0))
  }

  function SetText(m: Any, num: int, b: Bytes): (u: Any)
    requires KindOf(TypeOf(m), num) == Text
    ensures TypeOf(u) == TypeOf(m)
  {
    match m
    case OfMessage(p) => OfMessage(p.(moduleName := b))
    case OfProposal(p) =>
      OfProposal(if num == 1 then p.(moduleName := b) else if num == 3 then p.(id := b) else if num == 5 then p.(pid := b)
                 else if num == 6 then p.(pk := b) else if num == 7 then p.(signature := b) else p.(justify := b))
    case OfVote(p) =>
      OfVote(if num == 1 then p.(moduleName := b) else if num == 3 then p.(commitInfo := b) else if num == 5 then p.(pid := b)
             else if num == 6 then p.(pk := b) else p.(signature := b))
    case OfVoteInfo(p) => OfVoteInfo(if num == 2 then p.(proposalId := b) else p.(parentId := b))
    case OfTimeout(p) =>
      OfTimeout(if num == 1 then p.(moduleName := b) else if num == 4 then p.(parentId := b) else if num == 7 then p.(pid := b)
                else if num == 8 then p.(pk := b) else p.(signature := b))
    case OfPacketMsg(p) => OfPacketMsg(if num == 1 then p.(logId := b) else if num == 3 then p.(moduleName := b) else p.(data := b))
  }

  /** What a nested message is parsed into: the VoteInfo already there, or a new message for a oneof arm. */
  function Target(m: Any, num: int): Any
    requires KindOf(TypeOf(m), num) == Nested
  {
    match m
    case OfMessage(_) => New(if num == 2 then TProposal else if num == 3 then TVote else TTimeout)
    case OfVote(p) => OfVoteInfo(if p.voteInfo.Some? then p.voteInfo.value else NO_VOTE_INFO)
    case OfPacket(_) => New(TPacketMsg)
  }

  function SetNested(m: Any, num: int, v: Any): (u: Any)
    requires KindOf(TypeOf(m), num) == Nested && TypeOf(v) == TypeOf(Target(m, num))
    ensures TypeOf(u) == TypeOf(m)
  {
    match m
    case OfMessage(p) =>
      OfMessage(p.(sum := if num == 2 then SumProposal(v.proposal) else if num == 3 then SumVote(v.vote) else SumTimeout(v.timeout)))
    case OfVote(p) => OfVote(p.(voteInfo := Some(v.info)))
    case OfPacket(p) => OfPacket(p.(packetMsg := Some(v.packetMsg)))
  }

  function Unrecognized(m: Any): Bytes {
    match m
    case OfMessage(p) => p.unrecognized
    case OfProposal(p) => p.unrecognized
    case OfVote(p) => p.unrecognized
    case OfVoteInfo(p) => p.unrecognized
    case OfTimeout(p) => p.unrecognized
    case OfPacketMsg(p) => p.unrecognized
    case OfPacket(p) => p.unrecognized
  }

  function SetUnrecognized(m: Any, b: Bytes): (u: Any)
    ensures TypeOf(u) == TypeOf(m) && Unrecognized(u) == b
    ensures b == Unrecognized(m) ==> u == m
  {
    match m
    case OfMessage(p) => OfMessage(p.(unrecognized := b))
    case OfProposal(p) => OfProposal(p.(unrecognized := b))
    case OfVote(p) => OfVote(p.(unrecognized := b))
    case OfVoteInfo(p) => OfVoteInfo(p.(unrecognized := b))
    case OfTimeout(p) => OfTimeout(p.(unrecognized := b))
    case OfPacketMsg(p) => OfPacketMsg(p.(unrecognized := b))
    case OfPacket(p) => OfPacket(p.(unrecognized := b))
  }

  // ---- Parsing ----

  /** Unmarshal of the bytes s, which start at offset pos of the buffer, into m. */
  function Parse(m: Any, s: Bytes, pos: nat): (r: Result<Any, WireError>)
    ensures r.Ok? ==> TypeOf(r.value) == TypeOf(m)
    decreases |s|, 1
  {
    if s == [] then Ok(m)
    else
      match ParseField(m, s, pos)
      case Err(e) => Err(e)
      case Ok((u, n)) => Parse(u, s[n..], pos + n)
  }

  /** One turn of the Unmarshal loop: the new message and the bytes used. */
  function ParseField(m: Any, s: Bytes, pos: nat): (r: Result<(Any, nat), WireError>)
    ensures r.Ok? ==> 0 < r.value.1 <= |s| && TypeOf(r.value.0) == TypeOf(m)
    decreases |s|, 0
  {
    match ReadVarint(s)
    case Err(e) => Err(e)
    case Ok((wire, n)) =>
      var num, wireType := ToInt32(wire / 8), wire % 8;
      if wireType == 4 then Err(EndGroup)
      else if num <= 0 then Err(IllegalTag)
      else
        match KindOf(TypeOf(m), num)
        case Scalar =>
          if wireType != 0 then Err(WrongWireType)
          else
            (match ReadVarint(s[n..])
             case Err(e) => Err(e)
             case Ok((v, k)) => Ok((SetScalar(m, num, v), n + k)))
        case Text =>
          if wireType != 2 then Err(WrongWireType)
          else
            (match ReadChunk(s[n..], pos + n)
             case Err(e) => Err(e)
             case Ok((b, k)) => Ok((SetText(m, num, b), n + k)))
        case Nested =>
          if wireType != 2 then Err(WrongWireType)
          else
            (match ReadChunk(s[n..], pos + n)
             case Err(e) => Err(e)
             case Ok((b, k)) =>
               match Parse(Target(m, num), b, 0)
               case Err(e) => Err(e)
               case Ok(v) => Ok((SetNested(m, num, v), n + k)))
        case Unknown =>
          match Skip(s, 0, 0)
          case Err(e) => Err(e)
          case Ok(k) =>
            if pos + k >= INT64 then Err(InvalidLength)
            else if k > |s| then Err(UnexpectedEOF)
            else Ok((SetUnrecognized(m, Unrecognized(m) + s[..k]), k))
  }

  // ---- Printing ----

  /** A nonempty byte field. */
  function TextField(tag: byte, b: Bytes): Bytes {
    if b == [] then [] else [tag] + Chunk(b)
  }

  /** A nonzero varint field. */
  function ScalarField(tag: byte, v: uint64): Bytes {
    if v == 0 then [] else [tag] + Varint(v)
  }

  function NestedField(tag: byte, b: Bytes): Bytes {
    [tag] + Chunk(b)
  }

  function ProposalBytes(m: ProposalMessage): Bytes {
    TextField(0x0a, m.moduleName) + (ScalarField(0x10, ToU64(m.round)) + (TextField(0x1a, m.id)
    + (ScalarField(0x20, ToU64(m.timestamp)) + ProposalTail(m))))
  }

  function ProposalTail(m: ProposalMessage): Bytes {
    TextField(0x2a, m.pid) + (TextField(0x32, m.pk) + (TextField(0x3a, m.signature) + (TextField(0x42, m.justify)
    + m.unrecognized)))
  }

  function VoteInfoBytes(m: VoteInfo): Bytes {
    ScalarField(0x08, ToU64(m.proposalRound)) + (TextField(0x12, m.proposalId)
    + (ScalarField(0x18, ToU64(m.parentRound)) + (TextField(0x22, m.parentId) + m.unrecognized)))
  }

  function VoteBytes(m: VoteMessage): Bytes {
    TextField(0x0a, m.moduleName) + (VoteInfoField(m.voteInfo) + (TextField(0x1a, m.commitInfo)
    + (ScalarField(0x20, ToU64(m.timestamp)) + VoteTail(m))))
  }

  function VoteTail(m: VoteMessage): Bytes {
    TextField(0x2a, m.pid) + (TextField(0x32, m.pk) + (TextField(0x3a, m.signature) + m.unrecognized))
  }

  function VoteInfoField(i: Option<VoteInfo>): Bytes {
    if i.Some? then NestedField(0x12, VoteInfoBytes(i.value)) else []
  }

  function TimeoutBytes(m: TimoutMessage): Bytes {
    TextField(0x0a, m.moduleName) + (ScalarField(0x10, ToU64(m.round)) + (ScalarField(0x18, ToU64(m.parentRound))
    + (TextField(0x22, m.parentId) + TimeoutTail(m))))
  }

  function TimeoutTail(m: TimoutMessage): Bytes {
    ScalarField(0x28, ToU64(m.index)) + (ScalarField(0x30, ToU64(m.timestamp)) + (TextField(0x3a, m.pid)
    + (TextField(0x42, m.pk) + (TextField(0x4a, m.signature) + m.unrecognized))))
  }

  function SumField(s: Sum): Bytes {
    match s
    case NoSum => []
    case SumProposal(p) => NestedField(0x12, ProposalBytes(p))
    case SumVote(p) => NestedField(0x1a, VoteBytes(p))
    case SumTimeout(p) => NestedField(0x22, TimeoutBytes(p))
  }

  function MessageBytes(m: Message): Bytes {
    TextField(0x0a, m.moduleName) + (SumField(m.sum) + m.unrecognized)
  }

  function PacketMsgBytes(m: PacketMsg): Bytes {
    TextField(0x0a, m.logId) + (ScalarField(0x10, ToU64(m.channelId)) + (TextField(0x1a, m.moduleName)
    + (ScalarField(0x20, if m.eof then 1 else 0) + (TextField(0x2a, m.data) + m.unrecognized))))
  }

  function PacketMsgField(p: Option<PacketMsg>): Bytes {
    if p.Some? then NestedField(0x1a, PacketMsgBytes(p.value)) else []
  }

  function PacketBytes(m: Packet): Bytes {
    PacketMsgField(m.packetMsg) + m.unrecognized
  }

  function Print(m: Any): Bytes {
    match m
    case OfMessage(p) => MessageBytes(p)
    case OfProposal(p) => ProposalBytes(p)
    case OfVote(p) => VoteBytes(p)
    case OfVoteInfo(p) => VoteInfoBytes(p)
    case OfTimeout(p) => TimeoutBytes(p)
    case OfPacketMsg(p) => PacketMsgBytes(p)
    case OfPacket(p) => PacketBytes(p)
  }
}
