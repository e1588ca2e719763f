/** state/msg.go: the messages the replica handles, and their conversion to and from the wire. */
module ConsensusMessages {
  import opened Basics
  import opened Wire
  import opened Messages
  import opened MessageRoundTrips

  /** libs.ConsensusModule */
  const CONSENSUS: Bytes := [99, 111, 110, 115, 101, 110, 115, 117, 115]

  datatype MsgInfo =
    | ProposalMsg(round: int64, id: Bytes, justifyParent: Bytes, peerID: PeerID, timestamp: int64,
                  publicKey: Bytes, signature: Bytes)
    | VoteMsg(round: int64, id: Bytes, parentRound: int64, parentID: Bytes, commitInfo: Bytes, sendID: PeerID, to: PeerID,
              timestamp: int64, publicKey: Bytes, signature: Bytes)
    | TimeoutMsg(round: int64, index: int64, parentRound: int64, parentID: Bytes, sendID: PeerID, timestamp: int64,
                 publicKey: Bytes, signature: Bytes)

  /** Panicked stands for the nil message of an empty oneof, and the nil VoteInfo of a vote without one. */
  datatype Conversion = Converted(msg: MsgInfo) | BadBytes(e: WireError) | WrongModule | Panicked

  function SumFromMsg(msg: MsgInfo): Sum {
    match msg
    case ProposalMsg(round, id, justify, peer, timestamp, _, _) =>
      SumProposal(NO_PROPOSAL.(moduleName := CONSENSUS, round := round, id := id, justify := justify, timestamp := timestamp,
                               pid := peer))
    case VoteMsg(round, id, parentRound, parentID, commitInfo, sender, _, timestamp, _, _) =>
      SumVote(NO_VOTE.(moduleName := CONSENSUS, voteInfo := Some(VoteInfo(round, id, parentRound, parentID, [])),
                       commitInfo := commitInfo, timestamp := timestamp, pid := sender))
    case TimeoutMsg(round, index, parentRound, parentID, sender, timestamp, _, _) =>
      SumTimeout(NO_TIMEOUT.(moduleName := CONSENSUS, round := round, parentRound := parentRound, parentId := parentID,
                             index := index, timestamp := timestamp, pid := sender))
  }

  function ProtoFromConsMsg(msg: MsgInfo): Bytes {
    Print(OfMessage(Message(CONSENSUS, SumFromMsg(msg), [])))
  }

  function MsgFromSum(s: Sum): Conversion {
    match s
    case NoSum => Panicked
    case SumProposal(p) => Converted(ProposalMsg(p.round, p.id, p.justify, p.pid, p.timestamp, p.pk, p.signature))
    case SumVote(p) =>
      (match p.voteInfo
       case None => Panicked
       case Some(i) =>
         Converted(VoteMsg(i.proposalRound, i.proposalId, i.parentRound, i.parentId, p.commitInfo, p.pid, [], p.timestamp,
                           p.pk, p.signature)))
    case SumTimeout(p) =>
      Converted(TimeoutMsg(p.round, p.index, p.parentRound, p.parentId, p.pid, p.timestamp, p.pk, p.signature))
  }

  function ConsMsgFromProto(bytes: Bytes): Conversion {
    match Parse(New(TMessage), bytes, 0)
    case Err(e) => BadBytes(e)
    case Ok(m) => if m.message.moduleName != CONSENSUS then WrongModule else MsgFromSum(m.message.sum)
  }

  /** The message as a receiver sees it: the addressee is not sent, and a key and a signature are attached. */
  function Received(msg: MsgInfo, pk: Bytes, signature: Bytes): MsgInfo {
    match msg
    case ProposalMsg(round, id, justify, peer, timestamp, _, _) =>
      ProposalMsg(round, id, justify, peer, timestamp, pk, signature)
    case VoteMsg(round, id, parentRound, parentID, commitInfo, sender, _, timestamp, _, _) =>
      VoteMsg(round, id, parentRound, parentID, commitInfo, sender, [], timestamp, pk, signature)
    case TimeoutMsg(round, index, parentRound, parentID, sender, timestamp, _, _) =>
      TimeoutMsg(round, index, parentRound, parentID, sender, timestamp, pk, signature)
  }

  /** Nothing but the addressee, the key and the signature is lost on the wire. */
  lemma ConversionRoundTrip(msg: MsgInfo)
    requires |ProtoFromConsMsg(msg)| < INT64
    ensures ConsMsgFromProto(ProtoFromConsMsg(msg)) == Converted(Received(msg, [], []))
  {
    hide Parse, Print;
    var m := OfMessage(Message(CONSENSUS, SumFromMsg(msg), []));
    RoundTrip(m);
  }

  /** Any printed message: another module is refused, and a missing arm or a missing VoteInfo is a nil dereference. */
  lemma ConversionExactly(m: Message)
    requires WellFormed(OfMessage(m)) && |MessageBytes(m)| < INT64
    ensures var r := ConsMsgFromProto(MessageBytes(m));
      && (r == WrongModule <==> m.moduleName != CONSENSUS)
      && (r == Panicked <==> m.moduleName == CONSENSUS && (m.sum.NoSum? || (m.sum.SumVote? && m.sum.vote.voteInfo.None?)))
      && !r.BadBytes?
  {
    hide Parse, MessageBytes, WellFormed;
    RoundTrip(OfMessage(m));
  }
}
