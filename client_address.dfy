/** How the server derives and canonicalises the client address of a request. */
module ClientAddress {
  import opened Text
  import opened Http

  const MappedPrefix := "::ffff:"
  const Loopback6 := "::1"
  const Loopback4 := "127.0.0.1"

  /**
   * normalizeIp: strip one IPv4-mapped IPv6 prefix, then turn the IPv6
   * loopback into the IPv4 one. The empty string is returned as it is.
   */
  function NormalizeIp(ip: string): (r: string)
    ensures r != Loopback6
    ensures ip == "" ==> r == ""
    ensures r == Loopback4 || r == ip || (StartsWith(ip, MappedPrefix) && r == ip[|MappedPrefix|..])
  {
    if ip == "" then ip
    else
      var stripped := if StartsWith(ip, MappedPrefix) then ip[|MappedPrefix|..] else ip;
      if stripped == Loopback6 then Loopback4 else stripped
  }

  /** The exact result of normalizeIp, case by case. */
  lemma NormalizeIpCases(ip: string)
    ensures StartsWith(ip, MappedPrefix) ==>
      NormalizeIp(ip) == (if ip[7..] == Loopback6 then Loopback4 else ip[7..])
    ensures !StartsWith(ip, MappedPrefix) && ip != Loopback6 ==> NormalizeIp(ip) == ip
    ensures NormalizeIp(Loopback6) == Loopback4
  {
    assert !StartsWith(Loopback6, MappedPrefix);
  }

  /** An address written with the IPv4-mapped prefix names the same client as without it. */
  lemma MappedNotationAgrees(a: string)
    requires !StartsWith(a, MappedPrefix)
    ensures NormalizeIp(MappedPrefix + a) == NormalizeIp(a)
  {
    assert StartsWith(MappedPrefix + a, MappedPrefix);
    assert (MappedPrefix + a)[|MappedPrefix|..] == a;
  }

  /** The prefix is removed only once, so normalizeIp is not idempotent. */
  lemma NormalizeIpStripsOnce()
    ensures var ip := MappedPrefix + MappedPrefix + "1.2.3.4";
      NormalizeIp(ip) == MappedPrefix + "1.2.3.4" &&
      NormalizeIp(NormalizeIp(ip)) == "1.2.3.4"
  {
    var ip := MappedPrefix + MappedPrefix + "1.2.3.4";
    assert StartsWith(ip, MappedPrefix);
    assert ip[7..] == MappedPrefix + "1.2.3.4";
    assert StartsWith(MappedPrefix + "1.2.3.4", MappedPrefix);
    assert (MappedPrefix + "1.2.3.4")[7..] == "1.2.3.4";
  }

  /**
   * getClientIp: the first comma-separated entry of X-Forwarded-For, trimmed,
   * when that header is present; otherwise req.ip, then the socket address.
   * Either way the result is normalised.
   */
  function ClientIp(req: Request): (r: string)
    ensures req.forwardedFor != "" ==> r == NormalizeIp(Trim(FirstField(req.forwardedFor, ',')))
    ensures req.forwardedFor == "" ==>
      r == NormalizeIp(if req.ip != "" then req.ip else req.remoteAddress)
  {
    if req.forwardedFor != "" then
      var first := Trim(FirstField(req.forwardedFor, ','));
      NormalizeIp(first)
    else
      NormalizeIp(OrElse(req.ip, OrElse(req.remoteAddress, "")))
  }

  /** requireAdmin's key: getClientIp, else the raw address, else "unknown". */
  function AdminClientIp(req: Request): (r: string)
    ensures r != ""
    ensures ClientIp(req) != "" ==> r == ClientIp(req)
    ensures ClientIp(req) == "" ==>
      r == if req.ip != "" then req.ip else if req.remoteAddress != "" then req.remoteAddress else "unknown"
  {
    OrElse(ClientIp(req), OrElse(req.ip, OrElse(req.remoteAddress, "unknown")))
  }

  /** requireAdminWrite's key: getClientIp, else "unknown". */
  function ApiClientIp(req: Request): (r: string)
    ensures r != ""
    ensures r == ClientIp(req) || (ClientIp(req) == "" && r == "unknown")
  {
    OrElse(ClientIp(req), "unknown")
  }

  /** A single forwarded address: non-empty, no comma, no white space, no mapped prefix. */
  predicate PlainAddress(a: string) {
    a != "" && ',' !in a && !StartsWith(a, MappedPrefix) &&
    forall i :: 0 <= i < |a| ==> !IsSpace(a[i])
  }

  /** A forwarded header holding one address without comma or white space yields that address, normalised. */
  lemma ClientIpOfSingleForwarded(req: Request, a: string)
    requires a != "" && ',' !in a
    requires forall i :: 0 <= i < |a| ==> !IsSpace(a[i])
    ensures ClientIp(req.(forwardedFor := a)) == NormalizeIp(a)
  {
    FirstFieldOfPlain(a, ',');
    TrimOfPlain(a);
  }

  /**
   * Two requests whose forwarded address differs only by the IPv4-mapped
   * prefix are keyed as the same client.
   */
  lemma {:induction false} ForwardedNotationAgrees(req: Request, a: string)
    requires PlainAddress(a)
    ensures ClientIp(req.(forwardedFor := MappedPrefix + a)) == ClientIp(req.(forwardedFor := a))
  {
    var m := MappedPrefix + a;
    forall i | 0 <= i < |m| ensures m[i] != ',' && !IsSpace(m[i]) {
      if i >= |MappedPrefix| { assert m[i] == a[i - |MappedPrefix|]; }
    }
    ClientIpOfSingleForwarded(req, m);
    ClientIpOfSingleForwarded(req, a);
    MappedNotationAgrees(a);
  }

  /** `::1` and `127.0.0.1` in X-Forwarded-For are keyed as the same client. */
  lemma ForwardedLoopbackAgrees(req: Request)
    ensures ClientIp(req.(forwardedFor := Loopback6)) == ClientIp(req.(forwardedFor := Loopback4))
  {
    assert ',' !in Loopback6 && ',' !in Loopback4;
    assert forall i :: 0 <= i < |Loopback6| ==> !IsSpace(Loopback6[i]);
    assert forall i :: 0 <= i < |Loopback4| ==> !IsSpace(Loopback4[i]);
    ClientIpOfSingleForwarded(req, Loopback6);
    ClientIpOfSingleForwarded(req, Loopback4);
    LoopbacksNormalize();
  }

  /** Both loopback spellings normalise to `127.0.0.1`. */
  lemma LoopbacksNormalize()
    ensures NormalizeIp(Loopback6) == Loopback4 && NormalizeIp(Loopback4) == Loopback4
  {
    assert Loopback4[..|MappedPrefix|][0] != MappedPrefix[0];
    assert !StartsWith(Loopback6, MappedPrefix);
  }
}
