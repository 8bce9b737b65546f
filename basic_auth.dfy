/**
 * HTTP Basic credentials (RFC 7617): the decoded `user:pass` string and the
 * comparison the server makes against the configured administrator account.
 */
module BasicAuth {
  import opened Text

  datatype Credentials = Credentials(user: string, pass: string)

  /** The scheme prefix the gates look for; its length is what `header.slice(6)` skips. */
  const BasicScheme := "Basic "

  /**
   * The split of section 2 of RFC 7617: the user is everything before the
   * first colon and the password everything after it, so the password may
   * hold further colons. Without a colon the whole string is the user and the
   * password is empty.
   */
  function SplitCredentials(decoded: string): (c: Credentials)
    ensures ':' !in c.user
    ensures ':' in decoded ==> decoded == c.user + ":" + c.pass
    ensures ':' !in decoded ==> c == Credentials(decoded, "")
  {
    var sep := IndexOf(decoded, ':');
    if sep == -1 then Credentials(decoded, "")
    else
      assert decoded == decoded[..sep] + ":" + decoded[sep + 1..];
      Credentials(decoded[..sep], decoded[sep + 1..])
  }

  /** Joining a colon-free user and any password with ':' and splitting gives both back. */
  lemma {:induction false} SplitJoin(user: string, pass: string)
    requires ':' !in user
    ensures SplitCredentials(user + ":" + pass) == Credentials(user, pass)
  {
    var s := user + ":" + pass;
    assert s[..|user|] == user && s[|user|] == ':';
    assert s[|user| + 1..] == pass;
  }

  /**
   * constantTimeEqual: unequal lengths answer false at once; otherwise every
   * position is compared and the outcomes are combined with a bitwise AND, so
   * the loop never stops early. `comparisons` counts the positions compared.
   */
  method ConstantTimeEqual(a: string, b: string) returns (equal: bool, ghost comparisons: nat)
    ensures equal <==> a == b
    ensures comparisons == if |a| == |b| then |a| else 0
  {
    comparisons := 0;
    if |a| != |b| {
      return false, 0;
    }
    var ok: bv32 := 1;
    var i := 0;
    while i < |a|
      invariant 0 <= i <= |a|
      invariant comparisons == i
      invariant ok == 0 || ok == 1
      invariant ok == 1 <==> forall k :: 0 <= k < i ==> a[k] == b[k]
    {
      ok := ok & (if a[i] == b[i] then 1 else 0);
      i := i + 1;
      comparisons := comparisons + 1;
    }
    equal := ok != 0;
  }

  /** The header announces the Basic scheme: it is `Basic ` followed by the encoded credentials. */
  function IsBasic(header: string): (b: bool)
    ensures b ==> |header| >= 6 && header == BasicScheme + header[6..]
  {
    StartsWith(header, BasicScheme)
  }

  /**
   * The credentials a Basic header carries once the text after `Basic ` is
   * base64-decoded by `decode` and split at its first colon.
   */
  function Presented(header: string, decode: string -> string): (c: Credentials)
    requires IsBasic(header)
    ensures ':' !in c.user
    ensures var d := decode(header[6..]);
      (':' in d ==> d == c.user + ":" + c.pass) && (':' !in d ==> c == Credentials(d, ""))
  {
    SplitCredentials(decode(header[|BasicScheme|..]))
  }

  /**
   * The header is `Basic ` followed by text that decodes to exactly the
   * administrator's user and password. An administrator user holding a colon
   * can never be presented, since the split stops at the first colon.
   */
  function ValidBasic(admin: Credentials, header: string, decode: string -> string): (b: bool)
    ensures b ==> IsBasic(header)
    ensures ':' in admin.user ==> !b
  {
    IsBasic(header) && Presented(header, decode) == admin
  }

  /**
   * With a colon-free administrator user, a Basic header is valid exactly when
   * it decodes to `user:pass`, or, when the password is empty, to the bare user.
   */
  lemma ValidBasicIff(admin: Credentials, header: string, decode: string -> string)
    requires ':' !in admin.user
    requires IsBasic(header)
    ensures ValidBasic(admin, header, decode) <==>
      var d := decode(header[6..]);
      d == admin.user + ":" + admin.pass || (admin.pass == "" && d == admin.user)
  {
    var d := decode(header[6..]);
    if d == admin.user + ":" + admin.pass {
      SplitJoin(admin.user, admin.pass);
    }
  }
}
