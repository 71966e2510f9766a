# hostwatch, modelled in Dafny

hostwatch is a small command-line tool (`main.go`) that waits for a host to come
up. It resolves the host argument once, choosing IPv4 or IPv6. Then it sends
an ICMP Echo Request and waits up to 3 seconds for a reply. After a failed
attempt it sleeps 1 second before the next one. When a matching Echo Reply
arrives, it reports that the host is responding and exits.

This project models the decision logic of that program. The operating system
and library calls are inputs to the model:

- `net.ParseIP` and `To4` become a `ParsedIP`.
- `net.ResolveIPAddr(network, host)` becomes a `Lookup` function from the
  network name to a result.
- `icmp.ListenPacket`, `Marshal`, `WriteTo`, `SetReadDeadline`, `ReadFrom` and
  `icmp.ParseMessage` become the fields of a `Network`, one per probe.
- The process id is a parameter.

Modules, one per component of `main.go`:

- `Results` (results.dfy): `Option`, `Result` and `Status`. They stand for Go's
  nil values and `(value, error)` returns.
- `Families` (families.dfy): the address family chosen by the `isIPv6` flag.
  It gives every constant that depends on the family: listen network, wildcard
  bind address, resolver network, Echo Request and Echo Reply types, protocol
  number and label. It also holds `getIPVersion`. An ICMP type carries its
  family as well as its number, because Go compares `icmp.Type` values by
  dynamic type and value.
- `Icmp` (icmp.dfy): decoded ICMP messages, the echo identifier
  `pid & 0xffff`, the Echo Request that `ping` builds, and the 1500-byte
  receive buffer.
- `Resolver` (resolver.dfy): the resolution branch of `main`. `ResolveTarget`
  is imperative, as in the source. Its lookups go through a `HostResolver`
  object, which logs each lookup in a ghost field. It is proved against the reference
  definition `Resolution`: try the families in search order and take the first
  lookup that succeeds.
- `Prober` (prober.dfy): `ping`. `Ping` is a method with one early return per
  failing step. It is proved equal to the function `Probe`, and to succeed
  exactly on the path described by the predicate `Answered`.
- `Driver` (driver.dfy): the retry loop (`Watch`) and the whole of `main` after
  the argument check (`Run`).

Four behaviours of `main.go` shape the model:

- The sequence number rises only after a failed attempt, because the loop
  stops on success (main.go:74-80).
- A failed marshal, a failed read-deadline call and an unparseable reply are
  each reported on their own path (main.go:133-136, 150-153, 177-182).
- A read error of any kind is reported as "timeout or error" (main.go:160-163).
- `ReadFrom` is called once per attempt (main.go:159-163), so the first ICMP
  datagram of any kind decides the attempt. A stray message, such as another
  pinger's reply or an unrelated unreachable, ends the attempt as a failure
  (main.go:192-211); the program does not wait for a later one.

## Model

| member | source | states |
|---|---|---|
| `Families.Family.EchoRequestType` | main.go:98-106 | the request type belongs to the selected family, fits in one octet, and is informational (at least 128) for ICMPv6 |
| `Families.Family.EchoReplyType` | main.go:184-190 | the expected reply type belongs to the selected family, fits in one octet, differs from the request type, and is at least 128 for ICMPv6 |
| `Families.Family.ProtocolNumber` | main.go:168-175 | the protocol number passed to the parser fits the one-octet IP protocol field |
| `Families.ConstantsDetermineFamily` | main.go:98-106 | every per-family constant differs between the two families: listen network, bind address, resolver network, request and reply type numbers, protocol number and label |
| `Families.SocketConstants` | main.go:98-106 | when `isIPv6` holds, the socket is `ip6:ipv6-icmp` bound to `::`, the request type is ICMPv6 128 and the label "IPv6"; otherwise `ip4:icmp` on `0.0.0.0`, ICMP type 8 and "IPv4" |
| `Families.ParseProtocolConstants` | main.go:171-175 | the reply is parsed with protocol number 58 when `isIPv6` holds and 1 otherwise |
| `Families.ReplyTypeConstants` | main.go:185-190 | the expected reply type is ICMPv6 129 when `isIPv6` holds and ICMP 0 otherwise |
| `Families.ResolveNetworkConstants` | main.go:40-52 | IPv4 lookups use the network name "ip4" and IPv6 lookups "ip6" |
| `Families.GetIPVersion` | main.go:85-90 | gives "IPv6" exactly when the flag is true, and the same label `ping` uses for that family |
| `Icmp.EchoIdentifier` | main.go:119 | the identifier lies in 0..65535 and keeps the low 16 bits of the process id |
| `Icmp.EchoRequest` | main.go:114-123 | the request is of the family's type space but never of its Echo Reply type; it has code 0, and its Echo body carries the identifier and sequence number a reply must match and the fixed payload "hostwatch ping" |
| `Icmp.Received` | main.go:155-175 | the parser sees a prefix of the datagram of at most 1500 bytes, and the whole datagram when it fits |
| `Resolver.SearchOrder` | main.go:36-57 | a literal is looked up in exactly one family, IPv6 exactly when it has no 4-byte form; a hostname is looked up in IPv4 and then IPv6 |
| `Resolver.Attempts` | main.go:44-57 | the lookups performed form a non-empty prefix of the search order; every lookup except the last failed, and the search stops early only at a success |
| `Resolver.FirstResolved` | main.go:44-62 | success names a family from the search order whose lookup gave that address; failure happens exactly when every lookup fails, with the error of the last one |
| `Resolver.Resolution` | main.go:29-62 | a resolved target is marked as a hostname exactly when the input was not an IP literal |
| `Resolver.FirstResolvedIsLastAttempt` | main.go:49-62 | resolution fails exactly when the last lookup attempted fails, with that lookup's error; on success the family is the last one attempted |
| `Resolver.LiteralResolution` | main.go:36-43 | a literal is looked up once, in the family its form gives, and never counts as a hostname |
| `Resolver.HostnameResolution` | main.go:44-57 | for a hostname, IPv4 is tried first and IPv6 only after IPv4 fails; the family is IPv6 exactly when IPv4 failed and IPv6 succeeded; resolution fails exactly when both fail, with the IPv6 error |
| `Resolver.HostResolver.ResolveIPAddr` | main.go:49-52 | a lookup gives an address and no error, or no address and an error, and is appended to the lookup log |
| `Resolver.ResolveTarget` | main.go:29-57 | the step-by-step assignment of `dst`, `err`, `isIPv6` and `isHostname` appends exactly the lookups `Attempts` names, in that order, to the lookup log, and agrees with `Resolution`; `isIPv6` for a literal follows its form, and for a hostname it is set only when IPv4 failed and IPv6 succeeded |
| `Prober.Classify` | main.go:184-217 | a parsed reply succeeds exactly when it is a matching Echo Reply; a wrong type, a non-Echo body and a wrong identifier or sequence number each give their own report |
| `Prober.Probe` | main.go:92-218 | a probe reports a reply exactly on the one path where every step succeeds and the reply is the matching Echo Reply, and then only for the sequence number it was given; every other path fails |
| `Prober.OwnRequestNeverSucceeds` | main.go:115-198 | the probe's own Echo Request, read back unchanged, is reported as a non-reply type and never as success |
| `Prober.WrongTypeNeverSucceeds` | main.go:192-198 | a message that is not the family's Echo Reply fails, whatever its body contains |
| `Prober.OtherFamilyTypeNeverSucceeds` | main.go:185-198 | a type from the other family fails even when its number is this family's reply number |
| `Prober.NoCrossSequenceSuccess` | main.go:200-211 | one reply confirms at most one identifier and one sequence number, so success is never reported for a request other than the one just sent |
| `Prober.AnsweredEchoesRequest` | main.go:115-206 | on the success path the reply carries the identifier and sequence number of the request that was sent: one `id` builds the request and checks the reply |
| `Prober.EchoedRequestSucceeds` | main.go:139-206 | a peer that sends the request back as an Echo Reply makes the probe succeed for the sequence number just sent |
| `Prober.Ping` | main.go:92-218 | `ping` returns true exactly on the success path; what it reports equals `Probe` for the family the flag selects, with the identifier computed from the same process id where the request is built and where the reply is checked |
| `Driver.Watch` | main.go:72-82 | the sequence number starts at 1 and rises by one per failed attempt; attempt k uses sequence number k+1; the loop stops exactly at the first attempt that succeeds, and runs on while none does |
| `Driver.Run` | main.go:25-82 | probing starts exactly when resolution succeeds, and fails with the last lookup's error otherwise; the probes use the resolved address and family; the "Resolved to" family is printed only for a hostname; a success is the first answered attempt; `reports` holds what each attempt k reported for sequence number k+1, and without an answer the next sequence number is one past the last attempt |

## Left out

- The argument check and usage text (main.go:16-23), `os.Exit`, and all console output. `Run` keeps only the family named in the "Resolved to" line and, in `reports`, which branch each attempt reported.
- Opening the raw socket, `WriteTo`, `SetReadDeadline` and `ReadFrom` are modelled only by their success or error, as fields of `Network`.
- Closing the socket (`defer conn.Close()`, main.go:112) is not modelled. main.go discards its error, so it affects no result.
- `net.ParseIP`, `To4` and the DNS resolver are inputs (`ParsedIP`, `Lookup`). Their internals are outside this model.
- ICMP `Marshal` and `ParseMessage` (golang.org/x/net/icmp) are inputs of `Network`. So are the wire format and checksum (RFC 792, section 2.3 of RFC 4443), and any 16-bit truncation of the sequence number done while marshalling. Replies are compared with the full sequence number, as in main.go:203.
- Timing: the start timestamp, the round-trip duration, the 3-second read deadline and the 1-second sleep between attempts.
- Driver.Watch: the source loops forever until a probe succeeds. The model takes a finite list of per-attempt networks. When no attempt succeeds, it stops after the last one and returns the next sequence number. Non-termination itself is not modelled.
