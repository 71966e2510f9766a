/**
 * The address family hostwatch probes, and every constant that depends on it.
 *
 * main.go branches on a boolean `isIPv6` at each use; here the flag is turned
 * into a `Family` once and each constant is a member of that family.
 */
module Families {

  /** An ICMP message type as the Go icmp package represents it: the number
    * together with the family that defines it (`ipv4.ICMPType` or
    * `ipv6.ICMPType`). Two `icmp.Type` interface values are equal only when
    * both the family and the number agree. */
  datatype IcmpType = IcmpType(space: Family, number: int)

  datatype Family = IPv4 | IPv6 {

    /** Network name given to `icmp.ListenPacket`. */
    function ListenNetwork(): string
    {
      if IPv6? then "ip6:ipv6-icmp" else "ip4:icmp"
    }

    /** Wildcard address the listening socket binds to. */
    function BindAddress(): string
    {
      if IPv6? then "::" else "0.0.0.0"
    }

    /** Network name given to `net.ResolveIPAddr`. */
    function ResolveNetwork(): string
    {
      if IPv6? then "ip6" else "ip4"
    }

    /** Type of the Echo Request this family sends: 8 (RFC 792) or 128
      * (section 4.1 of RFC 4443). */
    function EchoRequestType(): (t: IcmpType)
      ensures t.space == this && 0 <= t.number < 256
      // ICMPv6 informational messages have the high-order bit of the type set
      // (section 2.1 of RFC 4443)
      ensures IPv6? ==> t.number >= 128
    {
      if IPv6? then IcmpType(IPv6, 128) else IcmpType(IPv4, 8)
    }

    /** Type of the Echo Reply this family accepts: 0 (RFC 792) or 129
      * (section 4.2 of RFC 4443). */
    function EchoReplyType(): (t: IcmpType)
      ensures t.space == this && 0 <= t.number < 256
      ensures IPv6? ==> t.number >= 128
      ensures t != EchoRequestType()
    {
      if IPv6? then IcmpType(IPv6, 129) else IcmpType(IPv4, 0)
    }

    /** IP protocol number handed to `icmp.ParseMessage`: 1 for ICMP, 58 for
      * ICMPv6. */
    function ProtocolNumber(): (p: int)
      ensures 0 < p < 256
    {
      if IPv6? then 58 else 1
    }

    /** Name of the family in console messages. */
    function Label(): string
    {
      if IPv6? then "IPv6" else "IPv4"
    }
  }

  /** The family main.go's `isIPv6` flag stands for. */
  function FromFlag(isIPv6: bool): (f: Family)
    ensures f.IPv6? <==> isIPv6
  {
    if isIPv6 then IPv6 else IPv4
  }

  /** `getIPVersion`: the family name printed after resolving a hostname. It is
    * the same label `ping` prints for the family the flag selects. */
  function GetIPVersion(isIPv6: bool): (s: string)
    ensures s == FromFlag(isIPv6).Label()
    ensures s == "IPv6" <==> isIPv6
  {
    if isIPv6 then "IPv6" else "IPv4"
  }

  /** Each per-family constant identifies its family: the flag cannot select
    * the bind address of one family and the protocol number or message types
    * of the other. */
  lemma ConstantsDetermineFamily(f: Family, g: Family)
    ensures f.ListenNetwork() == g.ListenNetwork() ==> f == g
    ensures f.BindAddress() == g.BindAddress() ==> f == g
    ensures f.ResolveNetwork() == g.ResolveNetwork() ==> f == g
    ensures f.ProtocolNumber() == g.ProtocolNumber() ==> f == g
    ensures f.EchoRequestType().number == g.EchoRequestType().number ==> f == g
    ensures f.EchoReplyType().number == g.EchoReplyType().number ==> f == g
    ensures f.Label() == g.Label() ==> f == g
  {
  }

  /** The socket `ping` opens and the request it sends, per value of the
    * flag: `ip6:ipv6-icmp` on `::` sending type 128 (section 4.1 of
    * RFC 4443), or `ip4:icmp` on `0.0.0.0` sending type 8 (RFC 792). */
  lemma SocketConstants(isIPv6: bool)
    ensures var f := FromFlag(isIPv6);
      if isIPv6 then
        f.ListenNetwork() == "ip6:ipv6-icmp" && f.BindAddress() == "::" &&
        f.EchoRequestType() == IcmpType(IPv6, 128) && f.Label() == "IPv6"
      else
        f.ListenNetwork() == "ip4:icmp" && f.BindAddress() == "0.0.0.0" &&
        f.EchoRequestType() == IcmpType(IPv4, 8) && f.Label() == "IPv4"
  {
  }

  /** The protocol number the reply is parsed with: 58 for ICMPv6, 1 for
    * ICMP. */
  lemma ParseProtocolConstants(isIPv6: bool)
    ensures FromFlag(isIPv6).ProtocolNumber() == if isIPv6 then 58 else 1
  {
  }

  /** The reply type `ping` waits for: ICMPv6 type 129 (section 4.2 of
    * RFC 4443) or ICMP type 0 (RFC 792). */
  lemma ReplyTypeConstants(isIPv6: bool)
    ensures FromFlag(isIPv6).EchoReplyType() ==
      if isIPv6 then IcmpType(IPv6, 129) else IcmpType(IPv4, 0)
  {
  }

  /** The network names the resolver is asked for: "ip4" and "ip6". */
  lemma ResolveNetworkConstants()
    ensures IPv4.ResolveNetwork() == "ip4" && IPv6.ResolveNetwork() == "ip6"
  {
  }
}
