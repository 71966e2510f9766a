/**
 * One probe: `ping` in main.go (lines 92-218). The socket, the clock and the
 * ICMP codec are oracles collected in a `Network`; what remains is the order
 * of the steps, the family constants each step uses, and the classification
 * of the reply.
 */
module Prober {
  import opened Results
  import opened Families
  import opened Icmp

  /** A datagram returned by `conn.ReadFrom`, with the peer it came from. */
  datatype Datagram = Datagram(bytes: seq<bv8>, peer: Address)

  /** The outcome of each OS or library call one `ping` makes. */
  datatype Network = Network(
    listen: (string, string) -> Status,        // icmp.ListenPacket(network, address)
    marshal: Message -> Result<seq<bv8>>,      // message.Marshal(nil)
    write: (seq<bv8>, Address) -> Status,      // conn.WriteTo(bytes, dst)
    setReadDeadline: Status,                   // conn.SetReadDeadline(now + 3s)
    read: Result<Datagram>,                    // conn.ReadFrom(reply)
    parse: (int, seq<bv8>) -> Result<Message>  // icmp.ParseMessage(protocol, bytes)
  )

  /** What one `ping` reports: one constructor per return path. Only `Reply`
    * makes `ping` return true. */
  datatype ProbeOutcome =
    | ListenFailed(family: string, cause: string)
    | MarshalFailed(cause: string)
    | SendFailed(cause: string)
    | DeadlineFailed(cause: string)
    | TimeoutOrError(cause: string)
    | Unparseable(peer: Address, cause: string)
    | NotEchoReply(observed: IcmpType, peer: Address)
    | WrongIdOrSeq(id: int, sequence: int, peer: Address)
    | MalformedEchoReply(peer: Address)
    | Reply(peer: Address, sequence: int)

  /** The reply `ping` is waiting for: an Echo Reply of family `f` whose Echo
    * body carries the expected identifier and sequence number. */
  predicate IsMatchingEchoReply(f: Family, m: Message, id: int, sequence: int)
  {
    m.typ == f.EchoReplyType() && m.body.Echo? && m.body.id == id && m.body.sequence == sequence
  }

  /** Classification of a parsed reply: type first, then the kind of body,
    * then identifier and sequence number. */
  function Classify(f: Family, m: Message, peer: Address, id: int, sequence: int): (o: ProbeOutcome)
    ensures o.Reply? <==> IsMatchingEchoReply(f, m, id, sequence)
    ensures o.Reply? ==> o == Reply(peer, sequence)
    ensures m.typ != f.EchoReplyType() ==> o == NotEchoReply(m.typ, peer)
    ensures m.typ == f.EchoReplyType() && m.body.OtherBody? ==> o == MalformedEchoReply(peer)
    ensures m.typ == f.EchoReplyType() && m.body.Echo? && (m.body.id != id || m.body.sequence != sequence) ==>
      o == WrongIdOrSeq(m.body.id, m.body.sequence, peer)
  {
    if m.typ != f.EchoReplyType() then NotEchoReply(m.typ, peer)
    else match m.body
      case Echo(replyId, replySequence, _) =>
        if replyId == id && replySequence == sequence then Reply(peer, sequence)
        else WrongIdOrSeq(replyId, replySequence, peer)
      case OtherBody(_) => MalformedEchoReply(peer)
  }

  /** What `ping` reports for sequence number `sequence`, step by step: each
    * step that fails ends the probe with its own outcome. */
  function Probe(net: Network, dst: Address, sequence: int, f: Family, id: int): (o: ProbeOutcome)
    ensures o.Reply? <==> Answered(net, dst, sequence, f, id)
    ensures o.Reply? ==> o.sequence == sequence
  {
    match net.listen(f.ListenNetwork(), f.BindAddress())
    case Failed(cause) => ListenFailed(f.Label(), cause)
    case Done =>
      match net.marshal(EchoRequest(f, id, sequence))
      case Err(cause) => MarshalFailed(cause)
      case Ok(bytes) =>
        match net.write(bytes, dst)
        case Failed(cause) => SendFailed(cause)
        case Done =>
          match net.setReadDeadline
          case Failed(cause) => DeadlineFailed(cause)
          case Done =>
            match net.read
            case Err(cause) => TimeoutOrError(cause)
            case Ok(datagram) =>
              match net.parse(f.ProtocolNumber(), Received(datagram.bytes))
              case Err(cause) => Unparseable(datagram.peer, cause)
              case Ok(reply) => Classify(f, reply, datagram.peer, id, sequence)
  }

  /** The one path on which `ping` succeeds: a socket of family `f` bound to
    * its wildcard address, the Echo Request marshalled and written to `dst`,
    * the deadline set, a datagram read, parsed with the family's protocol
    * number, and found to be the matching Echo Reply. */
  predicate Answered(net: Network, dst: Address, sequence: int, f: Family, id: int)
  {
    var request := EchoRequest(f, id, sequence);
    && net.listen(f.ListenNetwork(), f.BindAddress()).Done?
    && net.marshal(request).Ok?
    && net.write(net.marshal(request).value, dst).Done?
    && net.setReadDeadline.Done?
    && net.read.Ok?
    && var reply := net.parse(f.ProtocolNumber(), Received(net.read.value.bytes));
       reply.Ok? && IsMatchingEchoReply(f, reply.value, id, sequence)
  }

  /** A message whose type is not the family's Echo Reply type is reported as
    * such whatever its body holds, even an Echo body with the expected
    * identifier and sequence number. */
  lemma WrongTypeNeverSucceeds(f: Family, typ: IcmpType, code: int, peer: Address, id: int, sequence: int)
    requires typ != f.EchoReplyType()
    ensures forall body :: Classify(f, Message(typ, code, body), peer, id, sequence) == NotEchoReply(typ, peer)
  {
  }

  /** A type number of the other family never passes, even when the number is
    * the one this family's Echo Reply uses. */
  lemma OtherFamilyTypeNeverSucceeds(f: Family, m: Message, peer: Address, id: int, sequence: int)
    requires m.typ.space != f
    ensures Classify(f, m, peer, id, sequence) == NotEchoReply(m.typ, peer)
  {
  }

  /** A datagram that is the probe's own request read back (a raw socket can
    * deliver it when the target is local) is never taken for the reply. */
  lemma OwnRequestNeverSucceeds(f: Family, peer: Address, id: int, sequence: int)
    ensures Classify(f, EchoRequest(f, id, sequence), peer, id, sequence) ==
      NotEchoReply(f.EchoRequestType(), peer)
  {
  }

  /** One reply confirms at most one sequence number and one identifier: a
    * reply is never taken as the answer to a request other than the one just
    * sent. */
  lemma NoCrossSequenceSuccess(f: Family, m: Message, peer: Address, id1: int, seq1: int, id2: int, seq2: int)
    requires Classify(f, m, peer, id1, seq1).Reply?
    requires Classify(f, m, peer, id2, seq2).Reply?
    ensures id1 == id2 && seq1 == seq2
  {
  }

  /** On the success path the reply carries the identifier and sequence number
    * of the request that was marshalled and written. */
  lemma AnsweredEchoesRequest(net: Network, dst: Address, sequence: int, f: Family, id: int)
    requires Answered(net, dst, sequence, f, id)
    ensures var reply := net.parse(f.ProtocolNumber(), Received(net.read.value.bytes)).value;
      var request := EchoRequest(f, id, sequence);
      reply.body.id == request.body.id && reply.body.sequence == request.body.sequence
  {
  }

  /** A peer that sends the request back as an Echo Reply is recognised: when
    * every step succeeds and the datagram parses to the echoed request, the
    * probe reports a reply for the sequence number just sent. */
  lemma EchoedRequestSucceeds(net: Network, dst: Address, sequence: int, f: Family, id: int)
    requires net.listen(f.ListenNetwork(), f.BindAddress()).Done?
    requires net.marshal(EchoRequest(f, id, sequence)).Ok?
    requires net.write(net.marshal(EchoRequest(f, id, sequence)).value, dst).Done?
    requires net.setReadDeadline.Done? && net.read.Ok?
    requires net.parse(f.ProtocolNumber(), Received(net.read.value.bytes)) ==
      Ok(Message(f.EchoReplyType(), 0, EchoRequest(f, id, sequence).body))
    ensures Probe(net, dst, sequence, f, id) == Reply(net.read.value.peer, sequence)
  {
  }

  /** `ping`: open the socket for the family, build and send the Echo
    * Request, wait for one datagram, parse and classify it. Returns true
    * exactly on the success path; `outcome` is what the probe reports. */
  method Ping(net: Network, dst: Address, sequence: int, isIPv6: bool, pid: int)
    returns (success: bool, outcome: ProbeOutcome)
    ensures success <==> Answered(net, dst, sequence, FromFlag(isIPv6), EchoIdentifier(pid))
    ensures outcome == Probe(net, dst, sequence, FromFlag(isIPv6), EchoIdentifier(pid))
    ensures success <==> outcome.Reply?
  {
    var family := FromFlag(isIPv6);
    var conn := net.listen(family.ListenNetwork(), family.BindAddress());
    if conn.Failed? {
      return false, ListenFailed(family.Label(), conn.cause);
    }

    var message := EchoRequest(family, EchoIdentifier(pid), sequence);
    var messageBytes := net.marshal(message);
    if messageBytes.Err? {
      return false, MarshalFailed(messageBytes.cause);
    }

    var sent := net.write(messageBytes.value, dst);
    if sent.Failed? {
      return false, SendFailed(sent.cause);
    }

    var deadline := net.setReadDeadline;
    if deadline.Failed? {
      return false, DeadlineFailed(deadline.cause);
    }

    var read := net.read;
    if read.Err? {
      return false, TimeoutOrError(read.cause);
    }
    var peer := read.value.peer;

    var replyMessage := net.parse(family.ProtocolNumber(), Received(read.value.bytes));
    if replyMessage.Err? {
      return false, Unparseable(peer, replyMessage.cause);
    }

    var expectedEchoReplyType := family.EchoReplyType();
    if replyMessage.value.typ != expectedEchoReplyType {
      return false, NotEchoReply(replyMessage.value.typ, peer);
    }

    match replyMessage.value.body {
      case Echo(replyId, replySequence, _) =>
        var expectedId := EchoIdentifier(pid);
        if replyId == expectedId && replySequence == sequence {
          return true, Reply(peer, sequence);
        } else {
          return false, WrongIdOrSeq(replyId, replySequence, peer);
        }
      case OtherBody(_) =>
    }

    return false, MalformedEchoReply(peer);
  }
}
