/**
 * The runtime security configuration (IP whitelist and bypass switch) and
 * the validation and merge applied by the PUT on the security-config route.
 */
module SecurityConfig {
  import opened Wrappers
  import opened Json
  import opened Text
  import opened Sequences
  import ClientAddress

  datatype Config = Config(ipWhitelist: seq<string>, ipBypass: bool)

  /** The two properties read from the request body; `JUndefined` when absent. */
  datatype ConfigBody = ConfigBody(ipWhitelist: Json, ipBypass: Json)

  /** The three 400 answers of the update, in the order they are checked. */
  datatype ConfigError = WhitelistNotArray | EntryNotString | BypassNotBoolean

  predicate AllStrings(items: seq<Json>) {
    forall i :: 0 <= i < |items| ==> items[i].JStr?
  }

  /** Bypass is in force for `ip`: switched on, a non-empty whitelist, and `ip` listed. */
  function Bypassed(cfg: Config, ip: string): (b: bool)
    ensures b <==> cfg.ipBypass && ip in cfg.ipWhitelist
  {
    cfg.ipBypass && |cfg.ipWhitelist| > 0 && ip in cfg.ipWhitelist
  }

  /** `ipWhitelist.map(s => s.trim())`. */
  function TrimAll(items: seq<Json>): (r: seq<string>)
    requires AllStrings(items)
    ensures |r| == |items|
    ensures forall i :: 0 <= i < |items| ==> r[i] == Trim(items[i].s)
  {
    if items == [] then [] else [Trim(items[0].s)] + TrimAll(items[1..])
  }

  /**
   * `ipWhitelist.map(s => s.trim()).filter(Boolean)`: the trimmed entries
   * with the blank ones dropped; each entry kept is non-empty and has no
   * surrounding white space. The lemmas below show that order and repeats
   * are kept.
   */
  function CleanWhitelist(items: seq<Json>): (r: seq<string>)
    requires AllStrings(items)
    ensures |r| <= |items|
    ensures forall x :: x in r ==> x != "" && IsTrimmed(x)
  {
    if items == [] then []
    else
      var t := Trim(items[0].s);
      var rest := CleanWhitelist(items[1..]);
      if t != "" then
        PrependClean(t, rest);
        [t] + rest
      else rest
  }

  /** Putting a non-empty trimmed entry in front of a list of such entries gives a list of such entries. */
  lemma PrependClean(t: string, rest: seq<string>)
    requires t != "" && IsTrimmed(t)
    requires forall x :: x in rest ==> x != "" && IsTrimmed(x)
    ensures forall x :: x in [t] + rest ==> x != "" && IsTrimmed(x)
  {
    assert forall x :: x in [t] + rest ==> x == t || x in rest;
  }

  /** The cleaned whitelist keeps the trimmed entries in their order. */
  lemma {:induction false} CleanWhitelistKeepsOrder(items: seq<Json>)
    requires AllStrings(items)
    ensures IsSubsequence(CleanWhitelist(items), TrimAll(items))
    decreases |items|
  {
    if items != [] {
      CleanWhitelistKeepsOrder(items[1..]);
      var t := Trim(items[0].s);
      var rest := CleanWhitelist(items[1..]);
      assert TrimAll(items) == [t] + TrimAll(items[1..]);
      if t != "" {
        assert CleanWhitelist(items) == [t] + rest;
        assert ([t] + rest)[1..] == rest;
      } else if rest != [] {
        assert rest[0] in rest;
      }
    }
  }

  /**
   * The cleaned whitelist holds every non-blank trimmed entry as many times
   * as it occurs, and no blank one.
   */
  lemma {:induction false} CleanWhitelistKeepsCounts(items: seq<Json>)
    requires AllStrings(items)
    ensures forall x :: x != "" ==> multiset(CleanWhitelist(items))[x] == multiset(TrimAll(items))[x]
    ensures multiset(CleanWhitelist(items))[""] == 0
    decreases |items|
  {
    if items != [] {
      CleanWhitelistKeepsCounts(items[1..]);
      var t := Trim(items[0].s);
      assert TrimAll(items) == [t] + TrimAll(items[1..]);
      FilterStepCounts(t, CleanWhitelist(items[1..]), TrimAll(items[1..]));
    }
  }

  /** One step of the filter: `t` in front of both lists, kept only when non-blank, keeps the counts equal. */
  lemma FilterStepCounts(t: string, kept: seq<string>, all: seq<string>)
    requires forall x :: x != "" ==> multiset(kept)[x] == multiset(all)[x]
    requires multiset(kept)[""] == 0
    ensures var r := if t != "" then [t] + kept else kept;
      && (forall x :: x != "" ==> multiset(r)[x] == multiset([t] + all)[x])
      && multiset(r)[""] == 0
  {
    assert multiset([t] + all) == multiset{t} + multiset(all);
    assert multiset([t] + kept) == multiset{t} + multiset(kept);
  }

  /** The cleaned whitelist holds exactly the non-blank trimmed entries. */
  lemma {:induction false} CleanWhitelistMembers(items: seq<Json>)
    requires AllStrings(items)
    ensures forall x :: x in CleanWhitelist(items) <==> x != "" && x in TrimAll(items)
    decreases |items|
  {
    if items != [] {
      CleanWhitelistMembers(items[1..]);
      var t := Trim(items[0].s);
      assert TrimAll(items) == [t] + TrimAll(items[1..]);
      FilterStepMembers(t, CleanWhitelist(items[1..]), TrimAll(items[1..]));
    }
  }

  /** One step of the filter: `t` in front of both lists, kept only when non-blank, keeps the members matched. */
  lemma FilterStepMembers(t: string, kept: seq<string>, all: seq<string>)
    requires forall x :: x in kept <==> x != "" && x in all
    ensures var r := if t != "" then [t] + kept else kept;
      forall x :: x in r <==> x != "" && x in [t] + all
  {
  }

  /**
   * The PUT validation and merge: a truthy whitelist that is not an array, a
   * whitelist entry that is not a string, or a present bypass that is not a
   * boolean is refused; otherwise only the given fields are replaced (a
   * falsy whitelist such as null counts as not given).
   */
  function ValidateUpdate(cfg: Config, body: ConfigBody): (r: Result<Config, ConfigError>)
    ensures r.Failure? <==>
      || (Truthy(body.ipWhitelist) && !(body.ipWhitelist.JArr? && AllStrings(body.ipWhitelist.items)))
      || (body.ipBypass != JUndefined && !body.ipBypass.JBool?)
    ensures r == Failure(WhitelistNotArray) <==> Truthy(body.ipWhitelist) && !body.ipWhitelist.JArr?
    ensures r == Failure(EntryNotString) <==>
      body.ipWhitelist.JArr? && !AllStrings(body.ipWhitelist.items)
    ensures r.Success? ==>
      r.value.ipBypass == if body.ipBypass.JBool? then body.ipBypass.b else cfg.ipBypass
    ensures r.Success? && !Truthy(body.ipWhitelist) ==> r.value.ipWhitelist == cfg.ipWhitelist
    ensures r.Success? && body.ipWhitelist.JArr? ==>
      AllStrings(body.ipWhitelist.items) && r.value.ipWhitelist == CleanWhitelist(body.ipWhitelist.items)
  {
    var w := body.ipWhitelist;
    var b := body.ipBypass;
    if Truthy(w) && !w.JArr? then Failure(WhitelistNotArray)
    else if Truthy(w) && !AllStrings(w.items) then Failure(EntryNotString)
    else if b != JUndefined && !b.JBool? then Failure(BypassNotBoolean)
    else
      Success(Config(
        if Truthy(w) then CleanWhitelist(w.items) else cfg.ipWhitelist,
        if b.JBool? then b.b else cfg.ipBypass))
  }

  /**
   * The configuration as it is read back after being saved: every whitelist
   * entry goes through normalizeIp; the bypass switch is kept.
   */
  function Reloaded(cfg: Config): (r: Config)
    ensures r.ipBypass == cfg.ipBypass
    ensures |r.ipWhitelist| == |cfg.ipWhitelist|
    ensures forall i :: 0 <= i < |cfg.ipWhitelist| ==>
      r.ipWhitelist[i] == ClientAddress.NormalizeIp(cfg.ipWhitelist[i])
    ensures ClientAddress.Loopback6 !in r.ipWhitelist
  {
    Config(seq(|cfg.ipWhitelist|, i requires 0 <= i < |cfg.ipWhitelist| =>
      ClientAddress.NormalizeIp(cfg.ipWhitelist[i])), cfg.ipBypass)
  }

  /** Switching bypass off through the update ends bypass for every address. */
  lemma BypassOffEndsBypass(cfg: Config, whitelist: Json, ip: string)
    requires !Truthy(whitelist) || (whitelist.JArr? && AllStrings(whitelist.items))
    ensures var r := ValidateUpdate(cfg, ConfigBody(whitelist, JBool(false)));
      r.Success? && !Bypassed(Reloaded(r.value), ip)
  {
  }
}
