/**
 * The body of `main` (main.go, lines 25-83): resolve the host once, then ping
 * it with sequence numbers 1, 2, 3, ... until a probe succeeds.
 *
 * The source loops forever; the model is given one `Network` per attempt and
 * stops when they run out, reporting the sequence number it would use next.
 */
module Driver {
  import opened Results
  import opened Families
  import opened Icmp
  import opened Resolver
  import opened Prober

  /** Attempt `k` (counting from 0) is answered: it uses the `k`-th network and
    * sequence number `k + 1`. */
  predicate AnsweredAt(attempts: seq<Network>, k: nat, dst: Address, f: Family, id: int)
    requires k < |attempts|
  {
    Answered(attempts[k], dst, k + 1, f, id)
  }

  /** `sequence` is the first sequence number whose attempt is answered. */
  predicate FirstAnswered(attempts: seq<Network>, sequence: int, dst: Address, f: Family, id: int)
  {
    && 1 <= sequence <= |attempts|
    && AnsweredAt(attempts, sequence - 1, dst, f, id)
    && forall k :: 0 <= k < sequence - 1 ==> !AnsweredAt(attempts, k, dst, f, id)
  }

  /** How a run ends: resolution failed before any probe was sent, or the
    * host was watched. `announced` is the family named in the
    * "Resolved to" line, printed only for a hostname. */
  datatype Exit =
    | ResolutionFailed(cause: string)
    | Watched(target: Target, announced: Option<string>, responded: bool, sequence: int,
              reports: seq<ProbeOutcome>)

  /** The retry loop: the sequence number starts at 1 and rises by one after
    * each failed attempt; the loop stops on the first success. `reports`
    * holds what each attempt reported, in order. */
  method Watch(attempts: seq<Network>, dst: Address, isIPv6: bool, pid: int)
    returns (responded: bool, sequence: int, reports: seq<ProbeOutcome>)
    ensures 1 <= sequence <= |attempts| + 1
    ensures |reports| == (if responded then sequence else sequence - 1) && |reports| <= |attempts|
    ensures forall k :: 0 <= k < |reports| ==>
      reports[k] == Probe(attempts[k], dst, k + 1, FromFlag(isIPv6), EchoIdentifier(pid))
    ensures responded <==> exists k :: 0 <= k < |attempts| && AnsweredAt(attempts, k, dst, FromFlag(isIPv6), EchoIdentifier(pid))
    ensures responded ==> FirstAnswered(attempts, sequence, dst, FromFlag(isIPv6), EchoIdentifier(pid))
    ensures !responded ==> sequence == |attempts| + 1
  {
    ghost var f, id := FromFlag(isIPv6), EchoIdentifier(pid);
    sequence, responded, reports := 1, false, [];
    while sequence <= |attempts|
      invariant 1 <= sequence <= |attempts| + 1
      invariant |reports| == sequence - 1
      invariant forall k :: 0 <= k < |reports| ==> reports[k] == Probe(attempts[k], dst, k + 1, f, id)
      invariant forall k :: 0 <= k < sequence - 1 ==> !AnsweredAt(attempts, k, dst, f, id)
    {
      var success, outcome := Ping(attempts[sequence - 1], dst, sequence, isIPv6, pid);
      reports := reports + [outcome];
      if success {
        responded := true;
        break;
      }
      sequence := sequence + 1;
    }
    if responded {
      assert AnsweredAt(attempts, sequence - 1, dst, f, id);
    }
  }

  /** `main` after the argument check: resolution, the optional "Resolved to"
    * line, then the retry loop. Probing starts exactly when resolution
    * succeeds, and then uses the resolved address and family. */
  method Run(parsed: ParsedIP, lookup: Lookup, attempts: seq<Network>, pid: int) returns (exit: Exit)
    ensures exit.ResolutionFailed? <==> Resolution(parsed, lookup).Err?
    ensures exit.ResolutionFailed? ==> exit.cause == Resolution(parsed, lookup).cause
    ensures exit.Watched? ==> exit.target == Resolution(parsed, lookup).value
    ensures exit.Watched? ==>
      (exit.announced.Some? <==> exit.target.wasHostname) &&
      (exit.announced.Some? ==> exit.announced.value == exit.target.family.Label())
    ensures exit.Watched? ==>
      (exit.responded <==> (exists k :: 0 <= k < |attempts| &&
                             AnsweredAt(attempts, k, exit.target.addr, exit.target.family, EchoIdentifier(pid))))
    ensures exit.Watched? && exit.responded ==>
      FirstAnswered(attempts, exit.sequence, exit.target.addr, exit.target.family, EchoIdentifier(pid))
    ensures exit.Watched? && !exit.responded ==> exit.sequence == |attempts| + 1
    ensures exit.Watched? ==>
      |exit.reports| == (if exit.responded then exit.sequence else exit.sequence - 1) &&
      |exit.reports| <= |attempts|
    ensures exit.Watched? ==> forall k :: 0 <= k < |exit.reports| ==>
      exit.reports[k] == Probe(attempts[k], exit.target.addr, k + 1, exit.target.family, EchoIdentifier(pid))
  {
    var resolver := new HostResolver(lookup);
    var dst, err, isIPv6, isHostname := ResolveTarget(parsed, resolver);
    if err.Some? {
      return ResolutionFailed(err.value);
    }
    var announced := None;
    if isHostname {
      announced := Some(GetIPVersion(isIPv6));
    }
    var responded, sequence, reports := Watch(attempts, dst.value, isIPv6, pid);
    exit := Watched(Target(dst.value, FromFlag(isIPv6), isHostname), announced, responded, sequence, reports);
  }
}
