/**
 * ICMP messages as hostwatch builds and inspects them. The wire format, the
 * checksum and the parser live in golang.org/x/net/icmp and are not part of
 * this model; messages appear here already decoded.
 */
module Icmp {
  import opened Families

  /** A network address (`net.IPAddr`): the IP bytes and an optional zone. */
  datatype Address = Address(ip: seq<bv8>, zone: string)

  /** The body of a decoded ICMP message: an Echo body (`*icmp.Echo`) or any
    * other kind of body, kept as raw bytes. */
  datatype Body =
    | Echo(id: int, sequence: int, data: seq<bv8>)
    | OtherBody(raw: seq<bv8>)

  /** A decoded ICMP message (`icmp.Message`). */
  datatype Message = Message(typ: IcmpType, code: int, body: Body)

  /** The bytes of "hostwatch ping", the payload of every request. */
  const Payload: seq<bv8> :=
    [0x68, 0x6f, 0x73, 0x74, 0x77, 0x61, 0x74, 0x63, 0x68, 0x20, 0x70, 0x69, 0x6e, 0x67]

  /** Size of the buffer a reply is read into. */
  const ReceiveBufferSize: nat := 1500

  /** The echo identifier `os.Getpid() & 0xffff`: the low sixteen bits of the
    * process id. Dafny's `%` is Euclidean, so for every Go `int`, negative ones
    * included, it keeps the same bits as the two's-complement mask. */
  function EchoIdentifier(pid: int): (id: int)
    ensures 0 <= id <= 0xffff
    ensures (pid - id) % 0x1_0000 == 0
  {
    pid % 0x1_0000
  }

  /** The Echo Request `ping` sends for sequence number `sequence`. */
  function EchoRequest(f: Family, id: int, sequence: int): (m: Message)
    // a request is never of the type the same family accepts as a reply
    ensures m.typ.space == f && m.typ != f.EchoReplyType()
    // the Echo body carries the identifier and sequence number a reply must match
    ensures m.body.Echo? && m.body.id == id && m.body.sequence == sequence
    // code 0 and the fixed payload
    ensures m.code == 0 && m.body.data == Payload
  {
    Message(f.EchoRequestType(), 0, Echo(id, sequence, Payload))
  }

  /** `reply[:n]`: at most the first `ReceiveBufferSize` bytes of a datagram
    * reach the parser. */
  function Received(datagram: seq<bv8>): (b: seq<bv8>)
    ensures |b| <= ReceiveBufferSize
    ensures |b| <= |datagram| && b == datagram[..|b|]
    ensures |datagram| <= ReceiveBufferSize ==> b == datagram
  {
    if |datagram| <= ReceiveBufferSize then datagram else datagram[..ReceiveBufferSize]
  }
}
