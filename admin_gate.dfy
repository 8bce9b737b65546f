/**
 * The three admin gates of the server as decision procedures, and the
 * module-level state they share (the attempt table and the runtime security
 * configuration) as a class whose methods update it in place.
 */
module AdminGate {
  import opened Wrappers
  import opened Text
  import opened Http
  import opened ClientAddress
  import opened BasicAuth
  import opened Lockout
  import opened SecurityConfig

  const AdminPage := "/admin.html"
  const ApiPrefix := "/api/"
  const SecurityConfigPath := "/api/admin/security-config"
  const AdminRealm := "Admin"
  const ApiRealm := "Admin API"
  const ConfigRealm := "AdminConfig"

  /** The decision of a gate and the attempt table it leaves behind. */
  datatype GateResult = GateResult(decision: Decision, attempts: map<string, Attempt>)

  /**
   * The second half of requireAdmin, once a Basic header is present: a
   * running lock answers 429 with the seconds left and changes nothing;
   * matching credentials admit and clear the record; anything else is
   * refused, counted, and told how many attempts are left.
   */
  function CredentialCheck(admin: Credentials, policy: Policy, attempts: map<string, Attempt>,
                           ip: string, header: string, now: int, decode: string -> string): (out: GateResult)
    requires IsBasic(header)
    ensures forall k :: k != ip ==> Lookup(out.attempts, k) == Lookup(attempts, k)
    ensures out.decision.Proceed? <==> !IsLocked(Lookup(attempts, ip), now) && ValidBasic(admin, header, decode)
    ensures out.decision.Proceed? ==> ip !in out.attempts
    ensures out.decision.TooManyRequests? <==> IsLocked(Lookup(attempts, ip), now)
    ensures out.decision.TooManyRequests? ==>
      && out.attempts == attempts
      && out.decision.retryAfterSeconds == RetryAfterSeconds(attempts[ip].lockUntil, now)
    ensures out.decision.Unauthorized? ==>
      && out.attempts == attempts[ip := AfterFail(Lookup(attempts, ip), now, policy)]
      && out.decision == Unauthorized(AdminRealm, InvalidCredentialsRemaining(Remaining(policy, out.attempts[ip].fails)))
  {
    if IsLocked(Lookup(attempts, ip), now) then
      GateResult(TooManyRequests(RetryAfterSeconds(attempts[ip].lockUntil, now)), attempts)
    else if Presented(header, decode) == admin then GateResult(Proceed, attempts - {ip})
    else
      var e := AfterFail(Lookup(attempts, ip), now, policy);
      GateResult(Unauthorized(AdminRealm, InvalidCredentialsRemaining(Remaining(policy, e.fails))), attempts[ip := e])
  }

  /**
   * requireAdmin on the admin page, for the client keyed `ip`: bypass admits
   * and clears the address's record; a missing Basic header is refused and
   * counted as a failure, even during a lock; otherwise `CredentialCheck`
   * decides.
   */
  function PageDecision(cfg: Config, admin: Credentials, policy: Policy, attempts: map<string, Attempt>,
                        ip: string, header: string, now: int, decode: string -> string): (out: GateResult)
    ensures forall k :: k != ip ==> Lookup(out.attempts, k) == Lookup(attempts, k)
    ensures out.decision.Proceed? <==>
      Bypassed(cfg, ip) || (!IsLocked(Lookup(attempts, ip), now) && ValidBasic(admin, header, decode))
    ensures out.decision.Proceed? ==> ip !in out.attempts
    ensures out.decision.TooManyRequests? ==>
      && out.attempts == attempts
      && IsLocked(Lookup(attempts, ip), now)
      && out.decision.retryAfterSeconds == RetryAfterSeconds(attempts[ip].lockUntil, now)
    ensures out.decision.Unauthorized? ==>
      && out.decision.realm == AdminRealm
      && Lookup(out.attempts, ip) == Some(AfterFail(Lookup(attempts, ip), now, policy))
    ensures !Bypassed(cfg, ip) && IsBasic(header) && IsLocked(Lookup(attempts, ip), now) ==>
      out.decision.TooManyRequests?
    ensures out.decision == Unauthorized(AdminRealm, AuthRequired) <==> !Bypassed(cfg, ip) && !IsBasic(header)
    ensures out.decision.Unauthorized? && IsBasic(header) ==>
      && ip in out.attempts
      && out.decision.reason == InvalidCredentialsRemaining(Remaining(policy, out.attempts[ip].fails))
  {
    if Bypassed(cfg, ip) then GateResult(Proceed, attempts - {ip})
    else if !IsBasic(header) then
      GateResult(Unauthorized(AdminRealm, AuthRequired), attempts[ip := AfterFail(Lookup(attempts, ip), now, policy)])
    else CredentialCheck(admin, policy, attempts, ip, header, now, decode)
  }

  /**
   * requireAdmin: requests for any other path pass untouched; the admin page
   * is decided for the client's key, getClientIp or else the raw address.
   */
  function AdminDecision(cfg: Config, admin: Credentials, policy: Policy,
                         attempts: map<string, Attempt>, req: Request, now: int,
                         decode: string -> string): (out: GateResult)
    ensures req.path != AdminPage ==> out == GateResult(Proceed, attempts)
    ensures forall k :: k != AdminClientIp(req) ==> Lookup(out.attempts, k) == Lookup(attempts, k)
    ensures out.decision.Proceed? <==>
      || req.path != AdminPage
      || Bypassed(cfg, AdminClientIp(req))
      || (!IsLocked(Lookup(attempts, AdminClientIp(req)), now) && ValidBasic(admin, req.authorization, decode))
    ensures req.path == AdminPage && out.decision.Proceed? ==> AdminClientIp(req) !in out.attempts
    ensures out.decision.TooManyRequests? ==>
      && out.attempts == attempts
      && IsLocked(Lookup(attempts, AdminClientIp(req)), now)
      && out.decision.retryAfterSeconds == RetryAfterSeconds(attempts[AdminClientIp(req)].lockUntil, now)
    ensures out.decision.Unauthorized? ==>
      && out.decision.realm == AdminRealm
      && Lookup(out.attempts, AdminClientIp(req)) == Some(AfterFail(Lookup(attempts, AdminClientIp(req)), now, policy))
    ensures (&& req.path == AdminPage && !Bypassed(cfg, AdminClientIp(req)) && IsBasic(req.authorization)
             && IsLocked(Lookup(attempts, AdminClientIp(req)), now)) ==> out.decision.TooManyRequests?
    ensures out.decision == Unauthorized(AdminRealm, AuthRequired) <==>
      req.path == AdminPage && !Bypassed(cfg, AdminClientIp(req)) && !IsBasic(req.authorization)
    ensures out.decision.Unauthorized? && IsBasic(req.authorization) ==>
      && AdminClientIp(req) in out.attempts
      && out.decision.reason == InvalidCredentialsRemaining(Remaining(policy, out.attempts[AdminClientIp(req)].fails))
  {
    if req.path != AdminPage then GateResult(Proceed, attempts)
    else PageDecision(cfg, admin, policy, attempts, AdminClientIp(req), req.authorization, now, decode)
  }

  /** The calls requireAdminWrite guards: POST, PUT, DELETE or PATCH under `/api/`. */
  function IsApiWrite(req: Request): (b: bool)
    ensures b ==> req.verb != "GET" && req.verb != "HEAD" && req.verb != "OPTIONS"
    ensures req.path == SecurityConfigPath && req.verb == "PUT" ==> b
  {
    StartsWith(req.path, ApiPrefix) && req.verb in ["POST", "PUT", "DELETE", "PATCH"]
  }

  /**
   * requireAdminWrite: reads pass; a mutating API call passes on bypass or on
   * valid Basic credentials and is otherwise refused with 401. It has no
   * attempt table to read or write.
   */
  function WriteDecision(cfg: Config, admin: Credentials, req: Request, decode: string -> string): (d: Decision)
    ensures d.Proceed? <==>
      !IsApiWrite(req) || Bypassed(cfg, ApiClientIp(req)) || ValidBasic(admin, req.authorization, decode)
    ensures !d.Proceed? ==> d == Unauthorized(ApiRealm, AuthRequired)
  {
    if !IsApiWrite(req) then Proceed
    else if Bypassed(cfg, ApiClientIp(req)) then Proceed
    else if IsBasic(req.authorization) && Presented(req.authorization, decode) == admin then Proceed
    else Unauthorized(ApiRealm, AuthRequired)
  }

  /**
   * requireAdminStrong: Basic credentials only. It takes no configuration, so
   * neither the whitelist nor the bypass switch can open it.
   */
  function StrongDecision(admin: Credentials, req: Request, decode: string -> string): (d: Decision)
    ensures d.Proceed? <==> ValidBasic(admin, req.authorization, decode)
    ensures !IsBasic(req.authorization) ==> d == Unauthorized(ConfigRealm, AuthRequired)
    ensures IsBasic(req.authorization) && !d.Proceed? ==> d == Unauthorized(ConfigRealm, InvalidCredentials)
  {
    if !IsBasic(req.authorization) then Unauthorized(ConfigRealm, AuthRequired)
    else if Presented(req.authorization, decode) != admin then Unauthorized(ConfigRealm, InvalidCredentials)
    else Proceed
  }

  /** What the PUT on the security-config route answers. */
  datatype ConfigReply = Refused(decision: Decision) | Invalid(error: ConfigError) | Updated(config: Config)

  /**
   * The PUT on the security-config route behind requireAdminWrite (installed
   * for every request) and requireAdminStrong: only valid Basic credentials
   * reach the update, so the bypass cannot change its own whitelist; a valid
   * body replaces the runtime configuration by the saved one read back.
   */
  function SecurityConfigPut(cfg: Config, admin: Credentials, req: Request, body: ConfigBody,
                             decode: string -> string): (r: (ConfigReply, Config))
    requires req.path == SecurityConfigPath && req.verb == "PUT"
    ensures r.0.Updated? <==> ValidBasic(admin, req.authorization, decode) && ValidateUpdate(cfg, body).Success?
    ensures r.0.Updated? ==> r.1 == r.0.config == Reloaded(ValidateUpdate(cfg, body).value)
    ensures !r.0.Updated? ==> r.1 == cfg
    ensures r.0.Refused? <==> !ValidBasic(admin, req.authorization, decode)
    ensures r.0.Refused? ==>
      r.0.decision == (if Bypassed(cfg, ApiClientIp(req)) then StrongDecision(admin, req, decode)
                       else WriteDecision(cfg, admin, req, decode))
    ensures r.0.Refused? && !Bypassed(cfg, ApiClientIp(req)) ==> r.0.decision.realm == ApiRealm
    ensures r.0.Refused? && Bypassed(cfg, ApiClientIp(req)) ==> r.0.decision.realm == ConfigRealm
    ensures r.0.Invalid? ==> ValidateUpdate(cfg, body) == Failure(r.0.error)
  {
    var w := WriteDecision(cfg, admin, req, decode);
    if !w.Proceed? then (Refused(w), cfg)
    else
      var s := StrongDecision(admin, req, decode);
      if !s.Proceed? then (Refused(s), cfg)
      else match ValidateUpdate(cfg, body)
        case Failure(e) => (Invalid(e), cfg)
        case Success(c) => var live := Reloaded(c); (Updated(live), live)
  }

  /** A whitelisted address with bypass switched off must still present valid credentials. */
  lemma WhitelistNeedsBypass(cfg: Config, admin: Credentials, policy: Policy,
                             attempts: map<string, Attempt>, req: Request, now: int, decode: string -> string)
    requires !cfg.ipBypass
    ensures AdminDecision(cfg, admin, policy, attempts, req, now, decode).decision.Proceed? <==>
      req.path != AdminPage || (!IsLocked(Lookup(attempts, AdminClientIp(req)), now) && ValidBasic(admin, req.authorization, decode))
    ensures WriteDecision(cfg, admin, req, decode).Proceed? <==>
      !IsApiWrite(req) || ValidBasic(admin, req.authorization, decode)
  {
  }

  /** A locked address presenting a Basic header gets 429 with a positive wait, whatever its credentials. */
  lemma LockedAddressGets429(cfg: Config, admin: Credentials, policy: Policy,
                             attempts: map<string, Attempt>, req: Request, now: int, decode: string -> string)
    requires req.path == AdminPage && !Bypassed(cfg, AdminClientIp(req))
    requires IsBasic(req.authorization)
    requires IsLocked(Lookup(attempts, AdminClientIp(req)), now)
    ensures var out := AdminDecision(cfg, admin, policy, attempts, req, now, decode);
      && out.decision.TooManyRequests?
      && out.decision.retryAfterSeconds == RetryAfterSeconds(attempts[AdminClientIp(req)].lockUntil, now)
      && out.decision.retryAfterSeconds > 0
      && out.attempts == attempts
  {
  }

  /**
   * A request without a Basic header is counted before the lock is looked at,
   * so once the failure window has expired it restarts the record and the
   * lock still running for that address is gone.
   */
  lemma HeaderlessRequestEndsExpiredLock(cfg: Config, admin: Credentials, policy: Policy,
                                         attempts: map<string, Attempt>, req: Request, now: int,
                                         decode: string -> string)
    requires req.path == AdminPage && !Bypassed(cfg, AdminClientIp(req))
    requires !IsBasic(req.authorization)
    requires IsLocked(Lookup(attempts, AdminClientIp(req)), now)
    requires now - attempts[AdminClientIp(req)].first > policy.windowMs
    requires policy.maxFails > 1
    ensures var out := AdminDecision(cfg, admin, policy, attempts, req, now, decode);
      !IsLocked(Lookup(out.attempts, AdminClientIp(req)), now)
  {
    ExpiredWindowDropsLock(attempts[AdminClientIp(req)], now, policy);
  }

  /** Two requests whose forwarded address differs only by the IPv4-mapped prefix get the same outcome. */
  lemma MappedNotationSameOutcome(cfg: Config, admin: Credentials, policy: Policy,
                                  attempts: map<string, Attempt>, req: Request, a: string, now: int,
                                  decode: string -> string)
    requires PlainAddress(a)
    ensures AdminDecision(cfg, admin, policy, attempts, req.(forwardedFor := MappedPrefix + a), now, decode)
         == AdminDecision(cfg, admin, policy, attempts, req.(forwardedFor := a), now, decode)
    ensures WriteDecision(cfg, admin, req.(forwardedFor := MappedPrefix + a), decode)
         == WriteDecision(cfg, admin, req.(forwardedFor := a), decode)
  {
    ForwardedNotationAgrees(req, a);
  }

  /** The same request repeated at the given times, each time against the table the previous one left. */
  function AdminSeries(cfg: Config, admin: Credentials, policy: Policy, attempts: map<string, Attempt>,
                       req: Request, times: seq<int>, decode: string -> string): map<string, Attempt>
    decreases |times|
  {
    if times == [] then attempts
    else
      var out := AdminDecision(cfg, admin, policy, attempts, req, times[0], decode);
      AdminSeries(cfg, admin, policy, out.attempts, req, times[1..], decode)
  }

  /**
   * Bad credentials from an address whose record is not locked, failing no
   * more than the threshold allows and inside the record's window, are each
   * counted as one registerFail.
   */
  lemma {:induction false} BadAttemptsAreCounted(cfg: Config, admin: Credentials, policy: Policy,
                                                 attempts: map<string, Attempt>, req: Request,
                                                 times: seq<int>, decode: string -> string)
    requires req.path == AdminPage && !Bypassed(cfg, AdminClientIp(req))
    requires IsBasic(req.authorization) && !ValidBasic(admin, req.authorization, decode)
    requires AdminClientIp(req) in attempts
    requires attempts[AdminClientIp(req)].lockUntil == 0
    requires attempts[AdminClientIp(req)].fails + |times| <= policy.maxFails
    requires forall i :: 0 <= i < |times| ==> times[i] - attempts[AdminClientIp(req)].first <= policy.windowMs
    ensures Lookup(AdminSeries(cfg, admin, policy, attempts, req, times, decode), AdminClientIp(req))
         == FailSeries(Lookup(attempts, AdminClientIp(req)), times, policy)
    decreases |times|
  {
    if times != [] {
      var ip := AdminClientIp(req);
      var p := attempts[ip];
      var out := AdminDecision(cfg, admin, policy, attempts, req, times[0], decode);
      var e := AfterFail(Some(p), times[0], policy);
      assert !Restarts(Some(p), times[0], policy);
      assert out.attempts == attempts[ip := e];
      var rest := times[1..];
      if rest != [] {
        assert e.lockUntil == 0;
        forall i | 0 <= i < |rest| ensures rest[i] - e.first <= policy.windowMs {
          assert rest[i] == times[i + 1];
        }
        BadAttemptsAreCounted(cfg, admin, policy, out.attempts, req, rest, decode);
      }
    }
  }

  /**
   * MAX_FAILS bad attempts from a fresh address, all inside the window opened
   * by the first, lock it: any Basic request before LOCK_MS has passed since
   * the last one is answered 429 with a positive number of seconds.
   */
  lemma {:induction false} RepeatedBadCredentialsLock(cfg: Config, admin: Credentials, policy: Policy,
                                                      req: Request, times: seq<int>, now: int,
                                                      decode: string -> string)
    requires req.path == AdminPage && !Bypassed(cfg, AdminClientIp(req))
    requires IsBasic(req.authorization) && !ValidBasic(admin, req.authorization, decode)
    requires policy.maxFails >= 1 && |times| == policy.maxFails
    requires forall i :: 0 <= i < |times| ==> times[i] - times[0] <= policy.windowMs
    requires 0 <= now < times[|times| - 1] + policy.lockMs
    ensures var table := AdminSeries(cfg, admin, policy, map[], req, times, decode);
      var out := AdminDecision(cfg, admin, policy, table, req, now, decode);
      out.decision.TooManyRequests? && out.decision.retryAfterSeconds > 0 && out.attempts == table
  {
    var ip := AdminClientIp(req);
    var empty: map<string, Attempt> := map[];
    var first := AdminDecision(cfg, admin, policy, empty, req, times[0], decode);
    var e := AfterFail(None, times[0], policy);
    assert first.attempts == map[ip := e];
    var rest := times[1..];
    forall i | 0 <= i < |rest| ensures rest[i] - e.first <= policy.windowMs {
      assert rest[i] == times[i + 1];
    }
    var table := AdminSeries(cfg, admin, policy, empty, req, times, decode);
    assert table == AdminSeries(cfg, admin, policy, first.attempts, req, rest, decode);
    if rest != [] {
      assert e.lockUntil == 0;
      BadAttemptsAreCounted(cfg, admin, policy, first.attempts, req, rest, decode);
      FailuresAccumulate(e, rest, policy);
      assert rest[|rest| - 1] == times[|times| - 1];
    }
    ConsecutiveFailuresLock(times, policy);
    assert IsLocked(Lookup(table, ip), now);
    LockedAddressGets429(cfg, admin, policy, table, req, now, decode);
  }

  /**
   * The module-level state of the server that the gates share: the attempt
   * table (`authAttempts`) and the runtime configuration, with the
   * administrator account and the lockout policy fixed at start-up.
   */
  class AdminServer {
    const admin: Credentials
    const policy: Policy
    var config: Config
    var attempts: map<string, Attempt>

    constructor(admin: Credentials, policy: Policy, config: Config)
      ensures this.admin == admin && this.policy == policy && this.config == config
      ensures attempts == map[]
    {
      this.admin := admin;
      this.policy := policy;
      this.config := config;
      attempts := map[];
    }

    /** registerFail: the address's record after one more failure, stored and returned. */
    method RegisterFail(ip: string, now: int) returns (e: Attempt)
      modifies this`attempts
      ensures e == AfterFail(Lookup(old(attempts), ip), now, policy)
      ensures attempts == old(attempts)[ip := e]
    {
      var entry := if ip in attempts then attempts[ip] else Attempt(0, now, 0);
      if now - entry.first > policy.windowMs {
        entry := entry.(fails := 0, first := now, lockUntil := 0);
      }
      entry := entry.(fails := entry.fails + 1);
      if entry.fails >= policy.maxFails {
        entry := entry.(lockUntil := now + policy.lockMs);
      }
      attempts := attempts[ip := entry];
      e := entry;
    }

    /** registerSuccess: the address's record is deleted; every other record stays. */
    method RegisterSuccess(ip: string)
      modifies this`attempts
      ensures attempts == old(attempts) - {ip}
    {
      if ip in attempts {
        attempts := attempts - {ip};
      }
    }

    /** The Basic check shared by the gates, comparing in constant time. */
    method BasicMatches(header: string, decode: string -> string) returns (ok: bool)
      requires IsBasic(header)
      ensures ok <==> ValidBasic(admin, header, decode)
    {
      var c := SplitCredentials(decode(header[|BasicScheme|..]));
      ghost var n: nat;
      var userOk, passOk;
      userOk, n := ConstantTimeEqual(c.user, admin.user);
      passOk, n := ConstantTimeEqual(c.pass, admin.pass);
      ok := userOk && passOk;
    }

    /** requireAdmin, updating the attempt table in place. */
    method RequireAdmin(req: Request, now: int, decode: string -> string) returns (d: Decision)
      modifies this`attempts
      ensures GateResult(d, attempts) == AdminDecision(config, admin, policy, old(attempts), req, now, decode)
    {
      if req.path != AdminPage {
        return Proceed;
      }
      var ip := AdminClientIp(req);
      if Bypassed(config, ip) {
        RegisterSuccess(ip);
        return Proceed;
      }
      var header := req.authorization;
      if !IsBasic(header) {
        var _ := RegisterFail(ip, now);
        return Unauthorized(AdminRealm, AuthRequired);
      }
      var attempt := Lookup(attempts, ip);
      if IsLocked(attempt, now) {
        return TooManyRequests(RetryAfterSeconds(attempt.value.lockUntil, now));
      }
      var ok := BasicMatches(header, decode);
      if ok {
        RegisterSuccess(ip);
        return Proceed;
      }
      var e := RegisterFail(ip, now);
      d := Unauthorized(AdminRealm, InvalidCredentialsRemaining(Remaining(policy, e.fails)));
    }

    /** requireAdminWrite. */
    method RequireAdminWrite(req: Request, decode: string -> string) returns (d: Decision)
      ensures d == WriteDecision(config, admin, req, decode)
    {
      if !IsApiWrite(req) {
        return Proceed;
      }
      if Bypassed(config, ApiClientIp(req)) {
        return Proceed;
      }
      if IsBasic(req.authorization) {
        var ok := BasicMatches(req.authorization, decode);
        if ok {
          return Proceed;
        }
      }
      d := Unauthorized(ApiRealm, AuthRequired);
    }

    /** requireAdminStrong. */
    method RequireAdminStrong(req: Request, decode: string -> string) returns (d: Decision)
      ensures d == StrongDecision(admin, req, decode)
    {
      if !IsBasic(req.authorization) {
        return Unauthorized(ConfigRealm, AuthRequired);
      }
      var ok := BasicMatches(req.authorization, decode);
      if !ok {
        return Unauthorized(ConfigRealm, InvalidCredentials);
      }
      d := Proceed;
    }

    /** The PUT on the security-config route: both gates, then validation, save and reload. */
    method PutSecurityConfig(req: Request, body: ConfigBody, decode: string -> string) returns (reply: ConfigReply)
      requires req.path == SecurityConfigPath && req.verb == "PUT"
      modifies this`config
      ensures (reply, config) == SecurityConfigPut(old(config), admin, req, body, decode)
    {
      var w := RequireAdminWrite(req, decode);
      if !w.Proceed? {
        return Refused(w);
      }
      var s := RequireAdminStrong(req, decode);
      if !s.Proceed? {
        return Refused(s);
      }
      var r := ValidateUpdate(config, body);
      if r.Failure? {
        return Invalid(r.error);
      }
      config := Reloaded(r.value);
      reply := Updated(config);
    }
  }
}
