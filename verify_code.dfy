/** The route that redeems a sign-up code (src/app/api/auth/verify-code/route.ts):
    find the pending record for (e-mail, upper-cased code), refuse it when
    expired, create or update the account, and mark the record used. */
module VerifyCode {
  import opened Wrappers
  import opened Hex
  import opened FirebaseAuth
  import opened UserCodes
  import CreateUser

  /* ---------- upper-casing ---------- */

  function UpperChar(c: char): char {
    if 'a' <= c <= 'z' then c - 'a' + 'A' else c
  }

  function LowerChar(c: char): char {
    if 'A' <= c <= 'Z' then c - 'A' + 'a' else c
  }

  /** `toUpperCase`, on the ASCII letters. */
  function ToUpper(s: string): (r: string)
    ensures |r| == |s|
    ensures forall i :: 0 <= i < |s| ==> r[i] == UpperChar(s[i])
  {
    if s == [] then "" else [UpperChar(s[0])] + ToUpper(s[1..])
  }

  /** `toLowerCase`, on the ASCII letters. */
  function ToLower(s: string): (r: string)
    ensures |r| == |s|
    ensures forall i :: 0 <= i < |s| ==> r[i] == LowerChar(s[i])
  {
    if s == [] then "" else [LowerChar(s[0])] + ToLower(s[1..])
  }

  lemma CodeSymbolCase(c: char)
    requires CreateUser.IsCodeSymbol(c)
    ensures UpperChar(LowerChar(c)) == c && UpperChar(c) == c
  {
  }

  /** A code typed in lower case is upper-cased back into the code the admin issued. */
  lemma UpperOfLowerCode(code: string)
    requires forall i :: 0 <= i < |code| ==> CreateUser.IsCodeSymbol(code[i])
    ensures ToUpper(ToLower(code)) == code
    ensures ToUpper(code) == code
  {
    forall i | 0 <= i < |code|
      ensures UpperChar(LowerChar(code[i])) == code[i] && UpperChar(code[i]) == code[i]
    {
      CodeSymbolCase(code[i]);
    }
  }

  /* ---------- the route ---------- */

  datatype VerifyBody = VerifyBody(email: Option<string>, code: Option<string>)

  /** The request's JSON body; None when it does not parse. */
  datatype VerifyRequest = VerifyRequest(body: Option<VerifyBody>)

  /** The call the route makes on the identity service once the code is accepted. */
  datatype AccountAction =
    | PasswordReset(uid: Uid, password: string)
    | AccountCreated(uid: Uid, email: string, password: string, displayName: string, emailVerified: bool)

  datatype CodeVerified = CodeVerified(tempPassword: string, account: AccountAction)

  const TempPasswordBytes: nat := 16

  /** `email.split("@")[0]`: the text before the first `@`. */
  function LocalPart(email: string): (r: string)
    ensures |r| <= |email| && r == email[..|r|]
    ensures '@' !in r
    ensures '@' in email ==> |r| < |email| && email[|r|] == '@'
    ensures '@' !in email ==> r == email
  {
    var r := TextBefore(email, "@");
    assert forall i :: 0 <= i < |r| ==> !OccursAt(email, "@", i) && email[i..i + 1] == [r[i]];
    assert |r| < |email| ==> email[|r|..|r| + 1] == [email[|r|]];
    assert '@' in email ==> exists i :: 0 <= i < |email| && email[i] == '@';
    r
  }

  /** The display name of a newly created account: the stored one, else the local part of the e-mail. */
  function NewAccountName(stored: Option<string>, email: string): (name: string)
    ensures !IsMissing(stored) ==> name == stored.value
    ensures IsMissing(stored) ==> name == LocalPart(email)
  {
    if IsMissing(stored) then LocalPart(email) else stored.value
  }

  /** The whole route as a transition of the `userCodes` collection.
      `passwordBytes` are the sixteen random bytes of the temporary password,
      `newUid` the uid the service gives a created account, `now` the clock. */
  function VerifyCodeStep(records: seq<UserCode>, req: VerifyRequest, auth: AuthService,
                          passwordBytes: seq<byte>, newUid: Uid, now: nat): (s: Step<CodeVerified>)
    requires |passwordBytes| == TempPasswordBytes
    ensures |s.records| == |records|
    ensures Evolves(records, s.records)
    ensures OnePendingPerEmail(records) ==> OnePendingPerEmail(s.records)
    // a rejected request writes nothing
    ensures s.reply.Failure? ==> s.records == records
    // a body that does not parse: `request.json()` throws, 500
    ensures req.body.None? ==> s.reply == Failure(InternalError, "Failed to verify code")
    // e-mail or code missing: 400
    ensures req.body.Some? && (IsMissing(req.body.value.email) || IsMissing(req.body.value.code)) ==>
            s.reply == Failure(BadRequest, "Email and code are required")
    ensures req.body.Some? && !IsMissing(req.body.value.email) && !IsMissing(req.body.value.code) ==>
      var email := req.body.value.email.value;
      var m := FirstMatch(records, email, ToUpper(req.body.value.code.value));
      // nothing pending under that e-mail and code: 400
      && (m.None? ==> s.reply == Failure(BadRequest, "Invalid code or email"))
      // expired (strictly before now): 400, and the record stays pending
      && (m.Some? && records[m.value].expiresAt < now ==>
            s.reply == Failure(BadRequest, "This code has expired") && s.records == records &&
            s.records[m.value].status == Pending)
      // accepted: only the first match changes, from pending to used
      && (s.reply.Success? ==>
            m.Some? && now <= records[m.value].expiresAt &&
            s.records == records[m.value := Redeemed(records[m.value], s.reply.body.account.uid, now)])
      // a registered e-mail gets its password reset, and its own uid is recorded
      && (s.reply.Success? && email in auth.accounts ==>
            s.reply.body.account == PasswordReset(auth.accounts[email], s.reply.body.tempPassword))
      // an unregistered one gets a new, verified account, named after the code's
      // display name or the e-mail's local part
      && (s.reply.Success? && email !in auth.accounts ==>
            m.Some? && s.reply.body.account ==
              AccountCreated(newUid, email, s.reply.body.tempPassword,
                             NewAccountName(records[m.value].displayName, email), true))
      // an unexpired match when the account calls fail: 500, nothing written
      && (m.Some? && now <= records[m.value].expiresAt && !auth.accountsReachable ==>
            s.reply == Failure(InternalError, "Failed to verify code"))
      // when the account calls answer, an unexpired match is accepted, also when it expires right now
      && (m.Some? && now <= records[m.value].expiresAt && auth.accountsReachable ==> s.reply.Success?)
    // the temporary password is 32 lower-case hex characters
    ensures s.reply.Success? ==>
      |s.reply.body.tempPassword| == 2 * TempPasswordBytes && IsLowerHex(s.reply.body.tempPassword)
    ensures s.reply.Success? ==> FromHex(s.reply.body.tempPassword) == Some(passwordBytes)
    ensures s.reply.Success? ==>
      req.body.Some? && !IsMissing(req.body.value.email) && !IsMissing(req.body.value.code)
  {
    if req.body.None? then Step(Failure(InternalError, "Failed to verify code"), records)
    else if IsMissing(req.body.value.email) || IsMissing(req.body.value.code) then
      Step(Failure(BadRequest, "Email and code are required"), records)
    else
      var email := req.body.value.email.value;
      match FirstMatch(records, email, ToUpper(req.body.value.code.value))
      case None => Step(Failure(BadRequest, "Invalid code or email"), records)
      case Some(i) =>
        if records[i].expiresAt < now then Step(Failure(BadRequest, "This code has expired"), records)
        else
          var password := ToHex(passwordBytes);
          FromHexToHex(passwordBytes);
          match GetUserByEmail(auth, email)
          case AccountLookupFailed => Step(Failure(InternalError, "Failed to verify code"), records)
          case AccountFound(uid) =>
            Step(Success(CodeVerified(password, PasswordReset(uid, password))),
                 records[i := Redeemed(records[i], uid, now)])
          case AccountNotFound =>
            var name := NewAccountName(records[i].displayName, email);
            Step(Success(CodeVerified(password, AccountCreated(newUid, email, password, name, true))),
                 records[i := Redeemed(records[i], newUid, now)])
  }
}
