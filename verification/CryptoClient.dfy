/**
 * crypto/crypto_client.go: how Sign and Verify rebuild the signed payload from the wire message. The JSON
 * text, the signature scheme and the key are parameters.
 */
module CryptoClient {
  import opened Basics
  import opened Wire
  import opened Messages
  import opened MessageLaws
  import opened MessageRoundTrips
  import opened ConsensusMessages

  /** `sign` and `verify` are the methods under the same names; a None is their error. */
  datatype Client = Client(
    json: Sum -> Bytes, pk: Bytes, sign: Bytes -> Option<Bytes>, verify: (Bytes, Bytes, Bytes) -> Option<bool>)

  /** The message rebuilt field by field under the given key, without a signature or unknown fields. */
  function Payload(s: Sum, pk: Bytes): Sum {
    match s
    case NoSum => NoSum
    case SumProposal(p) =>
      SumProposal(NO_PROPOSAL.(moduleName := CONSENSUS, round := p.round, id := p.id, timestamp := p.timestamp, pid := p.pid,
                               justify := p.justify, pk := pk))
    case SumVote(p) =>
      SumVote(NO_VOTE.(moduleName := CONSENSUS, voteInfo := p.voteInfo, commitInfo := p.commitInfo, timestamp := p.timestamp,
                       pid := p.pid, pk := pk))
    case SumTimeout(p) =>
      SumTimeout(NO_TIMEOUT.(moduleName := CONSENSUS, round := p.round, parentRound := p.parentRound, parentId := p.parentId,
                             index := p.index, timestamp := p.timestamp, pid := p.pid, pk := pk))
  }

  function WithSignature(s: Sum, signature: Bytes): Sum {
    match s
    case NoSum => NoSum
    case SumProposal(p) => SumProposal(p.(signature := signature))
    case SumVote(p) => SumVote(p.(signature := signature))
    case SumTimeout(p) => SumTimeout(p.(signature := signature))
  }

  function KeyOf(s: Sum): Bytes {
    match s
    case NoSum => []
    case SumProposal(p) => p.pk
    case SumVote(p) => p.pk
    case SumTimeout(p) => p.pk
  }

  function SignatureOf(s: Sum): Bytes {
    match s
    case NoSum => []
    case SumProposal(p) => p.signature
    case SumVote(p) => p.signature
    case SumTimeout(p) => p.signature
  }

  function Sign(c: Client, bytes: Bytes): Option<Bytes> {
    match Parse(New(TMessage), bytes, 0)
    case Err(_) => None
    case Ok(m) =>
      if m.message.sum.NoSum? then None
      else
        var payload := Payload(m.message.sum, c.pk);
        match c.sign(c.json(payload))
        case None => None
        case Some(signature) => Some(Print(OfMessage(Message(CONSENSUS, WithSignature(payload, signature), []))))
  }

  /** The key and the signature are the message's own; the first two arguments of the source are not read. */
  function Verify(c: Client, bytes: Bytes): Option<bool> {
    match Parse(New(TMessage), bytes, 0)
    case Err(_) => None
    case Ok(m) =>
      var s := m.message.sum;
      if s.NoSum? then None else c.verify(c.json(Payload(s, KeyOf(s))), SignatureOf(s), KeyOf(s))
  }

  /** What was parsed is well formed, and so is what Sign makes of it. */
  lemma SignedWellFormed(m: Message, pk: Bytes, signature: Bytes)
    requires WellFormed(OfMessage(m))
    ensures WellFormed(OfMessage(Message(CONSENSUS, WithSignature(Payload(m.sum, pk), signature), [])))
  {
    EmptyUnknowns();
    hide Unknowns;
  }

  lemma ReceivedWellFormed(bytes: Bytes)
    requires Parse(New(TMessage), bytes, 0).Ok?
    ensures WellFormed(Parse(New(TMessage), bytes, 0).value)
  {
    hide Parse, WellFormed, New;
    NewWellFormed(TMessage);
    ParsedIsWellFormed(New(TMessage), bytes, 0);
  }

  /** Rebuilding the payload of a signed payload gives the payload that was signed. */
  lemma PayloadAgain(s: Sum, pk: Bytes, signature: Bytes)
    ensures var signed := WithSignature(Payload(s, pk), signature);
      && (signed.NoSum? <==> s.NoSum?) && (Payload(s, pk).NoSum? <==> s.NoSum?)
      && Payload(signed, KeyOf(signed)) == Payload(s, pk)
      && (!s.NoSum? ==> KeyOf(signed) == pk && SignatureOf(signed) == signature)
  {
  }

  /** When Sign gives anything: the bytes parse, hold one of the three messages, and the payload under the client's key is signed. */
  lemma SignSucceeds(c: Client, bytes: Bytes)
    ensures var r := Parse(New(TMessage), bytes, 0);
      Sign(c, bytes).Some? <==> r.Ok? && !r.value.message.sum.NoSum? && c.sign(c.json(Payload(r.value.message.sum, c.pk))).Some?
  {
    hide Parse, Payload;
  }

  /** What Sign writes parses back to the payload with its signature, under the consensus module. */
  lemma SignedParses(c: Client, bytes: Bytes, out: Bytes)
    requires Sign(c, bytes) == Some(out) && |out| < INT64
    ensures Parse(New(TMessage), bytes, 0).Ok?
    ensures var payload := Payload(Parse(New(TMessage), bytes, 0).value.message.sum, c.pk);
      && !payload.NoSum? && c.sign(c.json(payload)).Some?
      && Parse(New(TMessage), out, 0) ==
           Ok(OfMessage(Message(CONSENSUS, WithSignature(payload, c.sign(c.json(payload)).value), [])))
  {
    hide Parse, MessageBytes, WellFormed, WithSignature;
    var m := Parse(New(TMessage), bytes, 0).value.message;
    ReceivedWellFormed(bytes);
    var signature := c.sign(c.json(Payload(m.sum, c.pk))).value;
    SignedWellFormed(m, c.pk, signature);
    RoundTrip(OfMessage(Message(CONSENSUS, WithSignature(Payload(m.sum, c.pk), signature), [])));
  }

  /**
   * Verify, by any client with the same JSON, on any output of Sign checks exactly what was signed: the same
   * payload, the new signature and the signer's key. With a correct signature scheme it accepts.
   */
  lemma SignThenVerify(signer: Client, checker: Client, bytes: Bytes, out: Bytes)
    requires Sign(signer, bytes) == Some(out) && |out| < INT64 && checker.json == signer.json
    ensures Parse(New(TMessage), bytes, 0).Ok?
    ensures var data := signer.json(Payload(Parse(New(TMessage), bytes, 0).value.message.sum, signer.pk));
      && signer.sign(data).Some?
      && Verify(checker, out) == checker.verify(data, signer.sign(data).value, signer.pk)
  {
    hide Parse, Payload, WithSignature, KeyOf, SignatureOf, Sign;
    SignedParses(signer, bytes, out);
    var s := Parse(New(TMessage), bytes, 0).value.message.sum;
    PayloadAgain(s, signer.pk, signer.sign(signer.json(Payload(s, signer.pk))).value);
  }

  /**
   * Any bytes: without one of the three messages Verify gives an error and asks nothing. Otherwise it asks the
   * signature scheme about the message's own signature and own key, over data that gives back everything a
   * receiver converts once the signature is put in. So nothing is accepted that the scheme does not accept,
   * whoever signed it.
   */
  lemma VerifyChecks(c: Client, bytes: Bytes) returns (d: Sum)
    ensures Parse(New(TMessage), bytes, 0).Err? || Parse(New(TMessage), bytes, 0).value.message.sum.NoSum? ==> Verify(c, bytes) == None
    ensures Parse(New(TMessage), bytes, 0).Ok? ==>
      var s := Parse(New(TMessage), bytes, 0).value.message.sum;
      && (!s.NoSum? ==> Verify(c, bytes) == c.verify(c.json(d), SignatureOf(s), KeyOf(s)))
      && SignatureOf(d) == [] && KeyOf(d) == KeyOf(s) && MsgFromSum(WithSignature(d, SignatureOf(s))) == MsgFromSum(s)
      && (ConsMsgFromProto(bytes).Converted? ==>
            ConsMsgFromProto(bytes).msg.signature == SignatureOf(s) && ConsMsgFromProto(bytes).msg.publicKey == KeyOf(s))
  {
    hide Parse;
    d := NoSum;
    if Parse(New(TMessage), bytes, 0).Ok? {
      var s := Parse(New(TMessage), bytes, 0).value.message.sum;
      d := Payload(s, KeyOf(s));
    }
  }

  /** A message that was converted, signed, sent and converted back is the same but for addressee, key and signature. */
  lemma SignedConversion(c: Client, msg: MsgInfo, out: Bytes)
    requires |ProtoFromConsMsg(msg)| < INT64 && Sign(c, ProtoFromConsMsg(msg)) == Some(out) && |out| < INT64
    ensures var data := c.json(Payload(SumFromMsg(msg), c.pk));
      && c.sign(data).Some?
      && ConsMsgFromProto(out) == Converted(Received(msg, c.pk, c.sign(data).value))
  {
    EmptyUnknowns();
    hide Parse, MessageBytes, Unknowns, Sign;
    SignedParses(c, ProtoFromConsMsg(msg), out);
    RoundTrip(OfMessage(Message(CONSENSUS, SumFromMsg(msg), [])));
  }

  /** The payload fixes everything a receiver acts on: no field but the signature is outside it. */
  lemma PayloadCoversMessage(s: Sum, t: Sum)
    requires Payload(s, KeyOf(s)) == Payload(t, KeyOf(t)) && SignatureOf(s) == SignatureOf(t)
    ensures MsgFromSum(s) == MsgFromSum(t)
  {
  }
}
