/**
 * Turning the host argument into a target address and family (main.go,
 * lines 29-62). `net.ParseIP`/`To4` and `net.ResolveIPAddr` are oracles: the
 * parse result is given as a `ParsedIP`, and `lookup(network)` is the result of
 * `net.ResolveIPAddr(network, host)` for the fixed host string.
 */
module Resolver {
  import opened Results
  import opened Families
  import opened Icmp

  /** What `net.ParseIP(host)` and `ip.To4()` reveal about the host string:
    * not an IP literal at all, or a literal that does or does not have a
    * 4-byte form. */
  datatype ParsedIP = NotAnIP | Literal(hasFourByteForm: bool)

  /** The result of `net.ResolveIPAddr(network, host)` for the host being
    * watched, as a function of the network name. */
  type Lookup = string -> Result<Address>

  /** A resolved target: the address to probe, the family to probe it with,
    * and whether the user gave a hostname rather than a literal. */
  datatype Target = Target(addr: Address, family: Family, wasHostname: bool)

  /** The families whose lookup may be tried, in the order they are tried. */
  function SearchOrder(parsed: ParsedIP): (order: seq<Family>)
    ensures parsed.Literal? ==> |order| == 1 && (order[0] == IPv6 <==> !parsed.hasFourByteForm)
    ensures parsed.NotAnIP? ==> order == [IPv4, IPv6]
  {
    match parsed
    case Literal(hasFourByteForm) => [if hasFourByteForm then IPv4 else IPv6]
    case NotAnIP => [IPv4, IPv6]
  }

  /** The lookups actually performed when `order` is tried until one succeeds:
    * a non-empty prefix of `order` in which every lookup but the last failed,
    * and which stops short of the end of `order` only at a success. */
  function Attempts(order: seq<Family>, lookup: Lookup): (tried: seq<Family>)
    requires |order| > 0
    ensures 0 < |tried| <= |order| && tried == order[..|tried|]
    ensures forall i :: 0 <= i < |tried| - 1 ==> lookup(tried[i].ResolveNetwork()).Err?
    ensures lookup(tried[|tried| - 1].ResolveNetwork()).Err? ==> tried == order
  {
    if |order| == 1 || lookup(order[0].ResolveNetwork()).Ok? then [order[0]]
    else [order[0]] + Attempts(order[1..], lookup)
  }

  /** The first family in `order` whose lookup succeeds, with its address; the
    * error of the last lookup when every lookup fails. */
  function FirstResolved(order: seq<Family>, lookup: Lookup): (r: Result<(Address, Family)>)
    requires |order| > 0
    ensures r.Ok? ==> r.value.1 in order && lookup(r.value.1.ResolveNetwork()) == Ok(r.value.0)
    ensures r.Err? <==> forall f :: f in order ==> lookup(f.ResolveNetwork()).Err?
    ensures r.Err? ==> r.cause == lookup(order[|order| - 1].ResolveNetwork()).cause
  {
    match lookup(order[0].ResolveNetwork())
    case Ok(addr) => Ok((addr, order[0]))
    case Err(cause) =>
      if |order| == 1 then Err(cause) else FirstResolved(order[1..], lookup)
  }

  /** Resolution as a whole: the first family of the search order whose lookup
    * succeeds gives the target; otherwise resolution fails with the error of
    * the last lookup. */
  function Resolution(parsed: ParsedIP, lookup: Lookup): (r: Result<Target>)
    ensures r.Ok? ==> r.value.wasHostname == parsed.NotAnIP?
  {
    match FirstResolved(SearchOrder(parsed), lookup)
    case Ok((addr, family)) => Ok(Target(addr, family, parsed.NotAnIP?))
    case Err(cause) => Err(cause)
  }

  /** Resolution fails exactly when the last lookup attempted fails, and then
    * with that lookup's error; when it succeeds, the target's family is the
    * last one attempted. */
  lemma FirstResolvedIsLastAttempt(order: seq<Family>, lookup: Lookup)
    requires |order| > 0
    ensures var tried := Attempts(order, lookup);
      var last := lookup(tried[|tried| - 1].ResolveNetwork());
      (FirstResolved(order, lookup).Err? <==> last.Err?) &&
      (last.Err? ==> FirstResolved(order, lookup).cause == last.cause) &&
      (last.Ok? ==> FirstResolved(order, lookup) == Ok((last.value, tried[|tried| - 1])))
  {
  }

  /** An IP literal is looked up once, in the family its form gives: IPv6
    * exactly when it has no 4-byte form. It never counts as a hostname. */
  lemma LiteralResolution(hasFourByteForm: bool, lookup: Lookup)
    ensures var family := if hasFourByteForm then IPv4 else IPv6;
      Attempts(SearchOrder(Literal(hasFourByteForm)), lookup) == [family] &&
      Resolution(Literal(hasFourByteForm), lookup) ==
        match lookup(family.ResolveNetwork())
        case Ok(addr) => Ok(Target(addr, family, false))
        case Err(cause) => Err(cause)
  {
  }

  /** A hostname is looked up for IPv4 first, and for IPv6 only when IPv4
    * failed. Its family is IPv6 exactly when IPv4 failed and IPv6 succeeded;
    * it fails exactly when both fail, with the IPv6 lookup's error. */
  lemma HostnameResolution(lookup: Lookup)
    ensures Attempts(SearchOrder(NotAnIP), lookup) ==
      if lookup("ip4").Ok? then [IPv4] else [IPv4, IPv6]
    ensures var r := Resolution(NotAnIP, lookup);
      (r.Ok? ==> r.value.wasHostname) &&
      (r.Ok? && r.value.family == IPv4 <==> lookup("ip4").Ok?) &&
      (r.Ok? && r.value.family == IPv6 <==> lookup("ip4").Err? && lookup("ip6").Ok?) &&
      (r.Err? <==> lookup("ip4").Err? && lookup("ip6").Err?) &&
      (r.Err? ==> r.cause == lookup("ip6").cause)
  {
  }

  /** The resolver for the host being watched. `lookup` gives the result of
    * `net.ResolveIPAddr(network, host)`; `queried` is the log of the
    * families looked up so far, in order, kept up to date by every lookup. */
  class HostResolver {
    const lookup: Lookup
    ghost var queried: seq<Family>

    constructor (lookup: Lookup)
      ensures this.lookup == lookup && queried == []
    {
      this.lookup := lookup;
      queried := [];
    }

    /** `net.ResolveIPAddr` for family `f`, with its two results: an address
      * and a nil error, or no address and an error. Every call is logged. */
    method ResolveIPAddr(f: Family) returns (addr: Option<Address>, err: Option<string>)
      modifies this
      ensures queried == old(queried) + [f]
      ensures lookup(f.ResolveNetwork()).Ok? ==> addr == Some(lookup(f.ResolveNetwork()).value) && err == None
      ensures lookup(f.ResolveNetwork()).Err? ==> addr == None && err == Some(lookup(f.ResolveNetwork()).cause)
    {
      queried := queried + [f];
      match lookup(f.ResolveNetwork())
      case Ok(a) => addr, err := Some(a), None;
      case Err(cause) => addr, err := None, Some(cause);
    }
  }

  /** The resolution branch of `main`, assigning `dst`, `err`, `isIPv6` and
    * `isHostname` step by step. The lookups it makes are exactly `Attempts`
    * of the search order, in that order. The result agrees with
    * `Resolution`: `err` is nil exactly when resolution succeeds, and then
    * `dst` and the family flag describe the target; otherwise `err` is the
    * error of the last lookup. */
  method ResolveTarget(parsed: ParsedIP, resolver: HostResolver)
    returns (dst: Option<Address>, err: Option<string>, isIPv6: bool, isHostname: bool)
    modifies resolver
    ensures resolver.queried == old(resolver.queried) + Attempts(SearchOrder(parsed), resolver.lookup)
    ensures isHostname <==> parsed.NotAnIP?
    ensures parsed.Literal? ==> (isIPv6 <==> !parsed.hasFourByteForm)
    ensures parsed.NotAnIP? ==> (isIPv6 <==> resolver.lookup("ip4").Err? && resolver.lookup("ip6").Ok?)
    ensures match Resolution(parsed, resolver.lookup)
      case Ok(t) => err == None && dst == Some(t.addr) && FromFlag(isIPv6) == t.family
      case Err(cause) => err == Some(cause) && dst == None
  {
    isIPv6, isHostname := false, false;
    if parsed.Literal? {
      isIPv6 := !parsed.hasFourByteForm;
      if isIPv6 {
        dst, err := resolver.ResolveIPAddr(IPv6);
      } else {
        dst, err := resolver.ResolveIPAddr(IPv4);
      }
    } else {
      isHostname := true;
      dst, err := resolver.ResolveIPAddr(IPv4);
      if err != None {
        dst, err := resolver.ResolveIPAddr(IPv6);
        if err == None {
          isIPv6 := true;
        }
      }
      HostnameResolution(resolver.lookup);
    }
  }
}
