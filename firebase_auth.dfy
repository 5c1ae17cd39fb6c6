/** The identity service as the API routes see it, and the Bearer-header guard
    that create-user and grant-self-admin share. The service itself is an
    input value: which ID tokens it accepts, which e-mail addresses already
    have an account, and whether each kind of call answers. */
module FirebaseAuth {
  import opened Wrappers

  type Uid = string

  /** The decoded claims of an accepted ID token. */
  datatype Identity = Identity(uid: Uid, email: Option<string>)

  datatype AuthService = AuthService(
    sessions: map<string, Identity>,  // ID tokens the service accepts
    accounts: map<string, Uid>,       // e-mail address -> existing account
    verifierReachable: bool,          // false: `verifyIdToken` throws
    accountsReachable: bool)          // false: `getUserByEmail` throws another error than "not found"

  /** `verifyIdToken`: None stands for the thrown error. */
  function VerifyIdToken(auth: AuthService, token: string): (r: Option<Identity>)
    ensures r.Some? <==> auth.verifierReachable && token in auth.sessions
    ensures r.Some? ==> r.value == auth.sessions[token]
  {
    if auth.verifierReachable && token in auth.sessions then Some(auth.sessions[token]) else None
  }

  datatype AccountLookup = AccountFound(uid: Uid) | AccountNotFound | AccountLookupFailed

  /** `getUserByEmail`: an existing account, the "auth/user-not-found" error, or any other error. */
  function GetUserByEmail(auth: AuthService, email: string): (r: AccountLookup)
    ensures r.AccountFound? <==> auth.accountsReachable && email in auth.accounts
    ensures r.AccountLookupFailed? <==> !auth.accountsReachable
    ensures r.AccountFound? ==> r.uid == auth.accounts[email]
  {
    if !auth.accountsReachable then AccountLookupFailed
    else if email in auth.accounts then AccountFound(auth.accounts[email])
    else AccountNotFound
  }

  /* ---------- the Bearer header ---------- */

  const BearerPrefix: string := "Bearer "

  predicate StartsWith(s: string, prefix: string) {
    |prefix| <= |s| && s[..|prefix|] == prefix
  }

  predicate OccursAt(s: string, sep: string, i: nat) {
    i + |sep| <= |s| && s[i..i + |sep|] == sep
  }

  predicate Contains(s: string, sep: string) {
    exists i: nat | i <= |s| :: OccursAt(s, sep, i)
  }

  /** The text of `s` up to the first occurrence of `sep` (all of `s` when
      there is none): the second piece of `(sep + s).split(sep)`. */
  function TextBefore(s: string, sep: string): (r: string)
    requires |sep| > 0
    ensures |r| <= |s| && r == s[..|r|]
    ensures forall i: nat :: i < |r| ==> !OccursAt(s, sep, i)
    ensures |r| == |s| || OccursAt(s, sep, |r|)
    decreases |s|
  {
    if s == [] || OccursAt(s, sep, 0) then ""
    else
      var rest := TextBefore(s[1..], sep);
      TextBeforeStep(s, sep, rest);
      [s[0]] + rest
  }

  /** One character in front of the text before the separator in the tail. */
  lemma TextBeforeStep(s: string, sep: string, rest: string)
    requires |s| > 0 && !OccursAt(s, sep, 0)
    requires |rest| <= |s| - 1 && rest == s[1..][..|rest|]
    requires forall i: nat :: i < |rest| ==> !OccursAt(s[1..], sep, i)
    requires |rest| == |s| - 1 || OccursAt(s[1..], sep, |rest|)
    ensures [s[0]] + rest == s[..|rest| + 1]
    ensures forall i: nat :: i < |rest| + 1 ==> !OccursAt(s, sep, i)
    ensures |rest| + 1 == |s| || OccursAt(s, sep, |rest| + 1)
  {
    assert [s[0]] + s[1..][..|rest|] == s[..|rest| + 1];
    forall i: nat | 0 < i < |rest| + 1
      ensures !OccursAt(s, sep, i)
    {
      assert !OccursAt(s[1..], sep, i - 1);
      if i + |sep| <= |s| {
        assert s[1..][i - 1..i - 1 + |sep|] == s[i..i + |sep|];
      }
    }
    if |rest| + 1 < |s| {
      assert s[1..][|rest|..|rest| + |sep|] == s[|rest| + 1..|rest| + 1 + |sep|];
    }
  }

  lemma TextBeforeWithoutSeparator(s: string, sep: string)
    requires |sep| > 0 && !Contains(s, sep)
    ensures TextBefore(s, sep) == s
  {
    var r := TextBefore(s, sep);
    assert |r| <= |s| ==> !OccursAt(s, sep, |r|);
  }

  /** The token of `authHeader.split("Bearer ")[1]`, once the header is known
      to start with "Bearer "; None when the header is absent or does not. */
  function ExtractBearer(header: Option<string>): (token: Option<string>)
    ensures token.Some? <==> header.Some? && StartsWith(header.value, BearerPrefix)
    ensures token.Some? ==> StartsWith(header.value[|BearerPrefix|..], token.value)
    ensures token.Some? ==> !Contains(token.value, BearerPrefix)
    // the token runs up to the next "Bearer " or to the end of the header
    ensures token.Some? ==>
      forall i: nat :: i < |token.value| ==> !OccursAt(header.value[|BearerPrefix|..], BearerPrefix, i)
    ensures token.Some? ==>
      |token.value| == |header.value| - |BearerPrefix| ||
      OccursAt(header.value[|BearerPrefix|..], BearerPrefix, |token.value|)
  {
    if header.Some? && StartsWith(header.value, BearerPrefix) then
      var rest := header.value[|BearerPrefix|..];
      var t := TextBefore(rest, BearerPrefix);
      assert forall i: nat :: OccursAt(t, BearerPrefix, i) ==> OccursAt(rest, BearerPrefix, i);
      Some(t)
    else None
  }

  /** "Bearer " followed by a token that does not itself contain "Bearer " gives back that token. */
  lemma ExtractBearerRoundTrip(token: string)
    requires !Contains(token, BearerPrefix)
    ensures ExtractBearer(Some(BearerPrefix + token)) == Some(token)
  {
    var header := BearerPrefix + token;
    assert header[..|BearerPrefix|] == BearerPrefix;
    assert header[|BearerPrefix|..] == token;
    TextBeforeWithoutSeparator(token, BearerPrefix);
  }

  /** The guard both admin routes open with: a Bearer header carrying an ID
      token the service accepts, or 401. */
  function Authenticate(header: Option<string>, auth: AuthService): (r: Reply<Identity>)
    ensures r.Failure? ==> r.status == Unauthorized
    ensures r.Success? <==> ExtractBearer(header).Some? && VerifyIdToken(auth, ExtractBearer(header).value).Some?
    ensures r.Success? ==> r.body == auth.sessions[ExtractBearer(header).value]
    ensures ExtractBearer(header).None? ==> r == Failure(Unauthorized, "Unauthorized - No token provided")
    ensures ExtractBearer(header).Some? && VerifyIdToken(auth, ExtractBearer(header).value).None? ==>
              r == Failure(Unauthorized, "Unauthorized - Invalid token")
  {
    match ExtractBearer(header)
    case None => Failure(Unauthorized, "Unauthorized - No token provided")
    case Some(token) =>
      match VerifyIdToken(auth, token)
      case None => Failure(Unauthorized, "Unauthorized - Invalid token")
      case Some(identity) => Success(identity)
  }
}
