/**
 * The rules inside the AWS helpers (internal/aws/aws.go): reading the role
 * name out of a caller ARN, turning a failed identity check into the login
 * hint, and deciding on the bastion from the instances EC2 lists. The `aws`
 * command and the SDK calls are inputs.
 */
module Aws {
  import opened Wrappers
  import opened Text

  // ---------------------------------------------------------------------------
  // extractRoleName
  // ---------------------------------------------------------------------------

  const AssumedRoleMarker: string := "assumed-role/"
  const RoleMarker: string := "role/"
  const Slash: char := '/'

  /** `r` is the segment of `s` that starts at `k` and runs up to the next '/' or the end. */
  predicate SegmentAt(s: string, k: nat, r: string) {
    && k + |r| <= |s|
    && s[k..k + |r|] == r
    && Slash !in r
    && (k + |r| == |s| || s[k + |r|] == Slash)
  }

  /** The first part of a split on '/' is the segment at the start. */
  lemma FirstPartIsSegment(s: string)
    ensures SegmentAt(s, 0, SplitOn(s, Slash)[0])
  {
    match IndexOfChar(s, Slash)
    case None =>
    case Some(i) =>
  }

  /** The segment after the first occurrence of `marker`, if `marker` occurs. */
  function SegmentAfter(arn: string, marker: string): (r: Option<string>)
    ensures r.None? <==> IndexOf(arn, marker).None?
    ensures r.Some? ==> SegmentAt(arn, IndexOf(arn, marker).value + |marker|, r.value)
  {
    match IndexOf(arn, marker)
    case None => None
    case Some(i) =>
      var tail := arn[i + |marker|..];
      FirstPartIsSegment(tail);
      assert tail[..|SplitOn(tail, Slash)[0]|] == arn[i + |marker|..i + |marker| + |SplitOn(tail, Slash)[0]|];
      Some(SplitOn(tail, Slash)[0])
  }

  /**
   * `extractRoleName`: the segment after the first "assumed-role/", else the
   * segment after the first "role/", else the empty string.
   */
  function ExtractRoleName(arn: string): (r: string)
    ensures Slash !in r
    ensures Contains(arn, AssumedRoleMarker) ==>
      SegmentAt(arn, IndexOf(arn, AssumedRoleMarker).value + |AssumedRoleMarker|, r)
    ensures !Contains(arn, AssumedRoleMarker) && Contains(arn, RoleMarker) ==>
      SegmentAt(arn, IndexOf(arn, RoleMarker).value + |RoleMarker|, r)
    ensures !Contains(arn, AssumedRoleMarker) && !Contains(arn, RoleMarker) ==> r == ""
  {
    match SegmentAfter(arn, AssumedRoleMarker)
    case Some(role) => role
    case None =>
      match SegmentAfter(arn, RoleMarker)
      case Some(role) => role
      case None => ""
  }

  /**
   * The first occurrence of a key whose last character appears nowhere
   * else in it is the one right after a text that does not hold the key.
   */
  lemma FirstAfterAbsent(a: string, key: string, b: string)
    requires |key| > 0 && forall j :: 0 <= j < |key| - 1 ==> key[j] != key[|key| - 1]
    requires Absent(a, key)
    ensures IndexOf(a + key + b, key) == Some(|a|)
  {
    var s := a + key + b;
    assert s[|a|..|a| + |key|] == key;
    forall i: nat | i < |a| ensures !OccursAt(s, key, i) {
      var e := i + |key| - 1;
      if i + |key| <= |s| {
        assert s[i..i + |key|][|key| - 1] == s[e];
        if e < |a| {
          assert s[i..i + |key|] == a[i..i + |key|];
          assert !OccursAt(a, key, i);
        } else {
          assert s[e] == key[e - |a|] != key[|key| - 1];
        }
      }
    }
    IndexOfFirst(s, key, |a|);
  }

  /** The prefix of an STS caller ARN up to the role, for an account. */
  function StsArnPrefix(account: string): string {
    "arn:aws:sts::" + account + ":"
  }

  /** The segment at the start of `role + "/" + session` is `role`, when `role` holds no '/'. */
  lemma SegmentOfWord(s: string, k: nat, r: string, role: string, session: string)
    requires k <= |s| && s[k..] == role + [Slash] + session && Slash !in role
    requires SegmentAt(s, k, r)
    ensures r == role
  {
    var rest := role + [Slash] + session;
    assert s[k..k + |r|] == rest[..|r|];
    assert rest[..|role|] == role && rest[|role|] == Slash;
    assert forall j :: 0 <= j < |role| ==> rest[j] != Slash;
    assert |r| == |role|;
    assert r == rest[..|role|];
  }

  /**
   * The round trip of the role name: for the ARN STS reports for an assumed
   * role, `extractRoleName` gives back the role, whatever the session name.
   */
  lemma AssumedRoleArnRoundTrip(account: string, role: string, session: string)
    requires Slash !in account && Slash !in role
    ensures ExtractRoleName(StsArnPrefix(account) + AssumedRoleMarker + (role + [Slash] + session)) == role
  {
    var a := StsArnPrefix(account);
    var rest := role + [Slash] + session;
    var arn := a + AssumedRoleMarker + rest;
    assert Slash !in a;
    AbsentByLastChar(a, AssumedRoleMarker);
    FirstAfterAbsent(a, AssumedRoleMarker, rest);
    var k := |a| + |AssumedRoleMarker|;
    assert arn[k..] == rest;
    SegmentOfWord(arn, k, ExtractRoleName(arn), role, session);
  }

  // ---------------------------------------------------------------------------
  // getCallerIdentity and Authenticate
  // ---------------------------------------------------------------------------

  /** The account and role of the caller. */
  datatype AuthInfo = AuthInfo(accountID: string, roleName: string)

  /** What `aws sts get-caller-identity` gave: a failed run, unparsable output, or the decoded fields. */
  datatype StsOutput =
    | RunFailed(message: string)
    | Unparsable(message: string)
    | Decoded(account: string, arn: string)

  /** `getCallerIdentity`: the caller's account and role, refusing an ARN without a role name. */
  function CallerIdentity(sts: StsOutput): (r: Result<AuthInfo, string>)
    ensures r.Ok? <==> sts.Decoded? && ExtractRoleName(sts.arn) != ""
    ensures r.Ok? ==> r.value == AuthInfo(sts.account, ExtractRoleName(sts.arn)) && Slash !in r.value.roleName
    ensures sts.RunFailed? ==> r == Err("sts get-caller-identity: " + sts.message)
    ensures sts.Unparsable? ==> r == Err("parse sts output: " + sts.message)
    ensures sts.Decoded? && r.Err? ==> r.error == "could not extract role name from ARN: " + sts.arn
  {
    match sts
    case RunFailed(m) => Err("sts get-caller-identity: " + m)
    case Unparsable(m) => Err("parse sts output: " + m)
    case Decoded(account, arn) =>
      var role := ExtractRoleName(arn);
      if role == "" then Err("could not extract role name from ARN: " + arn)
      else Ok(AuthInfo(account, role))
  }

  /** Missing or expired credentials, with what is needed for the login hint. */
  datatype AuthError = AuthError(profile: string, ssoStartURL: string, ssoRegion: string)

  /** `Authenticate`: any failure of the identity check becomes an `AuthError`. */
  function Authenticate(profile: string, ssoStartURL: string, ssoRegion: string, sts: StsOutput): (r: Result<AuthInfo, AuthError>)
    ensures r.Err? <==> CallerIdentity(sts).Err?
    ensures r.Err? ==> r.error == AuthError(profile, ssoStartURL, ssoRegion)
    ensures r.Ok? ==> r.value == CallerIdentity(sts).value
  {
    match CallerIdentity(sts)
    case Ok(info) => Ok(info)
    case Err(_) => Err(AuthError(profile, ssoStartURL, ssoRegion))
  }

  /** The role of an authenticated caller is a single non-empty ARN segment. */
  lemma AuthenticatedRole(profile: string, ssoStartURL: string, ssoRegion: string, sts: StsOutput)
    requires Authenticate(profile, ssoStartURL, ssoRegion, sts).Ok?
    ensures sts.Decoded?
    ensures var role := Authenticate(profile, ssoStartURL, ssoRegion, sts).value.roleName;
      role != "" && Slash !in role && Contains(sts.arn, RoleMarker)
  {
    var arn := sts.arn;
    if !Contains(arn, RoleMarker) && Contains(arn, AssumedRoleMarker) {
      var i := IndexOf(arn, AssumedRoleMarker).value;
      assert arn[i..i + |AssumedRoleMarker|][8..] == RoleMarker;
      assert arn[i + 8..i + 8 + |RoleMarker|] == RoleMarker;
      assert OccursAt(arn, RoleMarker, i + 8);
    }
  }

  // ---------------------------------------------------------------------------
  // AuthError.Error
  // ---------------------------------------------------------------------------

  const SsoLoginPrefix: string := "  granted sso login --sso-start-url "
  const ProfileLoginPrefix: string := "  granted sso login --profile "
  const Closing: string := "\nThen re-run this tool."

  predicate HasSuffix(s: string, p: string) {
    |p| <= |s| && s[|s| - |p|..] == p
  }

  /** The opening of the message, naming the profile. */
  function Opening(profile: string): string {
    "no active AWS session for profile " + Quote(profile) + ".\n\nTo authenticate, run:\n\n"
  }

  /** The hint line that logs in through the SSO start URL and region. */
  function SsoHint(e: AuthError): string {
    SsoLoginPrefix + e.ssoStartURL + " --sso-region " + e.ssoRegion + "\n"
  }

  /**
   * `AuthError.Error`: the opening, the hint, and the closing line. The hint
   * logs in through the SSO start URL and region when both are set, and
   * through the profile otherwise.
   */
  method Error(e: AuthError) returns (msg: string)
    ensures HasPrefix(msg, Opening(e.profile)) && HasSuffix(msg, Closing)
    ensures HasPrefix(msg[|Opening(e.profile)|..], SsoHint(e)) <==> e.ssoStartURL != "" && e.ssoRegion != ""
    ensures !(e.ssoStartURL != "" && e.ssoRegion != "") ==>
      HasPrefix(msg[|Opening(e.profile)|..], ProfileLoginPrefix + e.profile + "\n")
  {
    msg := Opening(e.profile);
    var hint: string;
    if e.ssoStartURL != "" && e.ssoRegion != "" {
      hint := SsoHint(e);
    } else {
      hint := ProfileLoginPrefix + e.profile + "\n";
    }
    msg := msg + hint;
    msg := msg + Closing;
    ThreeParts(Opening(e.profile), hint, Closing);
    if !(e.ssoStartURL != "" && e.ssoRegion != "") {
      HintsDiffer(e, Closing);
    }
  }

  /** The parts of a message built from three pieces. */
  lemma ThreeParts(a: string, b: string, c: string)
    ensures HasPrefix(a + b + c, a) && HasSuffix(a + b + c, c)
    ensures (a + b + c)[|a|..] == b + c && HasPrefix(b + c, b)
  {
    var s := a + b + c;
    assert s[..|a|] == a;
    assert s[|s| - |c|..] == c;
    assert s[|a|..] == b + c;
    assert (b + c)[..|b|] == b;
  }

  /** The profile hint does not start like the SSO hint: they part at "--profile" and "--sso-start-url". */
  lemma HintsDiffer(e: AuthError, rest: string)
    ensures !HasPrefix(ProfileLoginPrefix + e.profile + "\n" + rest, SsoHint(e))
  {
    var s := ProfileLoginPrefix + e.profile + "\n" + rest;
    assert s[22] == 'p' && SsoHint(e)[22] == 's';
  }

  // ---------------------------------------------------------------------------
  // FindBastion
  // ---------------------------------------------------------------------------

  /** The instance ids of one reservation, `None` for an instance without one. */
  type Reservation = seq<Option<string>>

  /** The ids present in `insts`, in order. */
  function IdsOf(insts: Reservation): (ids: seq<string>)
    ensures |ids| <= |insts|
    ensures forall id :: id in ids <==> Some(id) in insts
  {
    if insts == [] then []
    else
      var last := insts[|insts| - 1];
      assert insts == insts[..|insts| - 1] + [last];
      IdsOf(insts[..|insts| - 1]) + (if last.Some? then [last.value] else [])
  }

  /** The ids of all reservations, reservation by reservation. */
  function Ids(rs: seq<Reservation>): seq<string> {
    if rs == [] then []
    else Ids(rs[..|rs| - 1]) + IdsOf(rs[|rs| - 1])
  }

  /** An id is collected exactly when some reservation has an instance carrying it. */
  lemma {:induction false} IdsMeaning(rs: seq<Reservation>, id: string)
    ensures id in Ids(rs) <==> exists k :: 0 <= k < |rs| && Some(id) in rs[k]
  {
    if rs != [] {
      var front := rs[..|rs| - 1];
      IdsMeaning(front, id);
      assert forall k :: 0 <= k < |front| ==> rs[k] == front[k];
    }
  }

  /**
   * `FindBastion`: after loading the configuration and listing the running
   * instances tagged as bastions (both inputs), collect the instance ids and
   * accept exactly one.
   */
  method FindBastion(region: string, loadError: Option<string>, described: Result<seq<Reservation>, string>)
    returns (r: Result<string, string>)
    ensures loadError.Some? ==> r == Err("load aws config: " + loadError.value)
    ensures loadError.None? && described.Err? ==> r == Err("describe instances: " + described.error)
    ensures r.Ok? <==> loadError.None? && described.Ok? && |Ids(described.value)| == 1
    ensures r.Ok? ==> [r.value] == Ids(described.value)
    ensures loadError.None? && described.Ok? && |Ids(described.value)| == 0 ==>
      r == Err("no bastion instance found in " + region)
    ensures loadError.None? && described.Ok? && |Ids(described.value)| > 1 ==>
      r == Err("expected 1 bastion in " + region + ", found " + IntToString(|Ids(described.value)|))
  {
    if loadError.Some? {
      return Err("load aws config: " + loadError.value);
    }
    if described.Err? {
      return Err("describe instances: " + described.error);
    }
    var rs := described.value;
    var instances: seq<string> := [];
    for i := 0 to |rs|
      invariant instances == Ids(rs[..i])
    {
      var insts := rs[i];
      for k := 0 to |insts|
        invariant instances == Ids(rs[..i]) + IdsOf(insts[..k])
      {
        assert insts[..k + 1][..k] == insts[..k];
        if insts[k].Some? {
          instances := instances + [insts[k].value];
        }
      }
      assert insts[..|insts|] == insts;
      assert rs[..i + 1][..i] == rs[..i];
    }
    assert rs[..|rs|] == rs;
    if |instances| == 0 {
      return Err("no bastion instance found in " + region);
    } else if |instances| == 1 {
      return Ok(instances[0]);
    } else {
      return Err("expected 1 bastion in " + region + ", found " + IntToString(|instances|));
    }
  }

  /** Collecting over two lists of reservations collects over each, in order. */
  lemma {:induction false} IdsAppend(rs: seq<Reservation>, more: seq<Reservation>)
    ensures Ids(rs + more) == Ids(rs) + Ids(more)
    decreases |more|
  {
    if more == [] {
      assert rs + more == rs;
    } else {
      var front := more[..|more| - 1];
      var last := more[|more| - 1];
      var all := rs + more;
      assert all[..|all| - 1] == rs + front && all[|all| - 1] == last;
      assert Ids(all) == Ids(rs + front) + IdsOf(last);
      IdsAppend(rs, front);
      assert Ids(more) == Ids(front) + IdsOf(last);
      assert Ids(rs) + Ids(front) + IdsOf(last) == Ids(rs) + (Ids(front) + IdsOf(last));
    }
  }
}
