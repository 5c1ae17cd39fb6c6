/** The `userCodes` collection as the two routes change it in place, and the
    two-state life of a code (pending -> used) over any sequence of requests. */
module UserCodeTable {
  import opened Wrappers
  import opened Hex
  import opened FirebaseAuth
  import opened CheckAdmin
  import opened UserCodes
  import opened CreateUser
  import opened VerifyCode

  class UserCodeCollection {
    var records: seq<UserCode>

    ghost predicate Valid()
      reads this
    {
      OnePendingPerEmail(records)
    }

    constructor ()
      ensures Valid() && records == []
    {
      records := [];
    }

    /** POST /api/admin/create-user. */
    method CreateUserCode(req: CreateUserRequest, auth: AuthService,
                          profiles: map<Uid, Profile>, profilesReadable: bool,
                          draws: seq<real>, newId: string, now: nat)
      returns (reply: Reply<CodeIssued>)
      requires Valid()
      requires |draws| == CodeLength && AreRandomDraws(draws)
      modifies this
      ensures Valid()
      ensures var s := CreateUserStep(old(records), req, auth, profiles, profilesReadable, draws, newId, now);
        reply == s.reply && records == s.records
    {
      var caller := Authenticate(req.authorization, auth);
      if caller.Failure? {
        return Failure(caller.status, caller.error);
      }
      var uid := caller.body.uid;
      if !IsUserAdmin(ReadProfile(profiles, uid, profilesReadable)) {
        return Failure(Forbidden, "Forbidden - Admin access required");
      }
      if req.body.None? {
        return Failure(InternalError, "Failed to create user code");
      }
      var body := req.body.value;
      if IsMissing(body.email) {
        return Failure(BadRequest, "Email is required");
      }
      var email := body.email.value;
      if !IsValidEmail(email) {
        return Failure(BadRequest, "Invalid email format");
      }
      var code := GenerateUserCode(draws);
      if HasPending(records, email) {
        return Failure(BadRequest, "A pending code already exists for this email");
      }
      var account := GetUserByEmail(auth, email);
      if account.AccountFound? {
        return Failure(BadRequest, "A user with this email already exists");
      } else if account.AccountLookupFailed? {
        return Failure(InternalError, "Failed to create user code");
      }
      records := records + [IssuedRecord(newId, email, body.displayName, code, uid, now)];
      reply := Success(CodeIssued(newId, email, code));
    }

    /** POST /api/auth/verify-code. */
    method VerifyUserCode(req: VerifyRequest, auth: AuthService,
                          passwordBytes: seq<byte>, newUid: Uid, now: nat)
      returns (reply: Reply<CodeVerified>)
      requires Valid()
      requires |passwordBytes| == TempPasswordBytes
      modifies this
      ensures Valid()
      ensures var s := VerifyCodeStep(old(records), req, auth, passwordBytes, newUid, now);
        reply == s.reply && records == s.records
    {
      if req.body.None? {
        return Failure(InternalError, "Failed to verify code");
      }
      var body := req.body.value;
      if IsMissing(body.email) || IsMissing(body.code) {
        return Failure(BadRequest, "Email and code are required");
      }
      var email := body.email.value;
      var found := FirstMatch(records, email, ToUpper(body.code.value));
      if found.None? {
        return Failure(BadRequest, "Invalid code or email");
      }
      var i := found.value;
      if records[i].expiresAt < now {
        return Failure(BadRequest, "This code has expired");
      }
      var password := ToHex(passwordBytes);
      var account := GetUserByEmail(auth, email);
      var action: AccountAction;
      if account.AccountFound? {
        action := PasswordReset(account.uid, password);
      } else if account.AccountNotFound? {
        action := AccountCreated(newUid, email, password, NewAccountName(records[i].displayName, email), true);
      } else {
        return Failure(InternalError, "Failed to verify code");
      }
      records := records[i := Redeemed(records[i], action.uid, now)];
      reply := Success(CodeVerified(password, action));
    }
  }

  /* ---------- runs of requests ---------- */

  /** One request to either route, with everything the environment supplies for it. */
  datatype Request =
    | Issue(create: CreateUserRequest, auth: AuthService, profiles: map<Uid, Profile>,
            profilesReadable: bool, draws: seq<real>, newId: string, now: nat)
    | Redeem(verify: VerifyRequest, auth: AuthService, passwordBytes: seq<byte>, newUid: Uid, now: nat)

  predicate WellFormed(r: Request) {
    match r
    case Issue(_, _, _, _, draws, _, _) => |draws| == CodeLength && AreRandomDraws(draws)
    case Redeem(_, _, passwordBytes, _, _) => |passwordBytes| == TempPasswordBytes
  }

  predicate AllWellFormed(requests: seq<Request>) {
    forall k :: 0 <= k < |requests| ==> WellFormed(requests[k])
  }

  function Apply(records: seq<UserCode>, r: Request): seq<UserCode>
    requires WellFormed(r)
  {
    match r
    case Issue(create, auth, profiles, readable, draws, newId, now) =>
      CreateUserStep(records, create, auth, profiles, readable, draws, newId, now).records
    case Redeem(verify, auth, passwordBytes, newUid, now) =>
      VerifyCodeStep(records, verify, auth, passwordBytes, newUid, now).records
  }

  /** The collection after the requests have been handled one after another. */
  function Run(records: seq<UserCode>, requests: seq<Request>): seq<UserCode>
    requires AllWellFormed(requests)
    decreases |requests|
  {
    if requests == [] then records
    else Run(Apply(records, requests[0]), requests[1..])
  }

  /** How many of the requests moved record `i` from pending to used. */
  function RedemptionsOf(records: seq<UserCode>, requests: seq<Request>, i: nat): nat
    requires AllWellFormed(requests)
    decreases |requests|
  {
    if requests == [] then 0
    else
      var next := Apply(records, requests[0]);
      var moved := i < |records| && i < |next| && records[i].status == Pending && next[i].status == Used;
      (if moved then 1 else 0) + RedemptionsOf(next, requests[1..], i)
  }

  /** One request appends at most one record, changes at most one of the
      records already there, and only by redeeming it. */
  lemma ApplyEvolves(records: seq<UserCode>, r: Request)
    requires WellFormed(r)
    ensures Evolves(records, Apply(records, r))
    ensures OnePendingPerEmail(records) ==> OnePendingPerEmail(Apply(records, r))
    ensures |Apply(records, r)| <= |records| + 1
    ensures |Apply(records, r)| == |records| + 1 ==> Apply(records, r)[..|records|] == records
    ensures var next := Apply(records, r);
      forall i, j :: 0 <= i < |records| && 0 <= j < |records| && next[i] != records[i] && next[j] != records[j] ==> i == j
  {
    match r
    case Issue(create, auth, profiles, readable, draws, newId, now) =>
      var s := CreateUserStep(records, create, auth, profiles, readable, draws, newId, now);
      assert s.reply.Success? ==> s.records[..|records|] == records;
      assert forall i :: 0 <= i < |records| ==> s.records[i] == records[i] by {
        if s.reply.Success? {
          forall i | 0 <= i < |records| ensures s.records[i] == records[i] {
            assert s.records[..|records|][i] == s.records[i];
          }
        }
      }
    case Redeem(verify, auth, passwordBytes, newUid, now) =>
      var s := VerifyCodeStep(records, verify, auth, passwordBytes, newUid, now);
      if s.reply.Success? {
        var email := verify.body.value.email.value;
        var m := FirstMatch(records, email, ToUpper(verify.body.value.code.value));
        assert s.records == records[m.value := Redeemed(records[m.value], s.reply.body.account.uid, now)];
      }
  }

  /** The requests after the first are well formed too. */
  lemma TailWellFormed(requests: seq<Request>)
    requires AllWellFormed(requests) && requests != []
    ensures AllWellFormed(requests[1..])
  {
    forall k | 0 <= k < |requests[1..]| ensures WellFormed(requests[1..][k]) {
      assert requests[1..][k] == requests[k + 1];
    }
  }

  /** Whatever the collection holds, a run of requests only appends records
      and moves records from pending to used. */
  lemma {:induction false} RunEvolves(records: seq<UserCode>, requests: seq<Request>)
    requires AllWellFormed(requests)
    ensures Evolves(records, Run(records, requests))
    decreases |requests|
  {
    if requests != [] {
      var next := Apply(records, requests[0]);
      ApplyEvolves(records, requests[0]);
      TailWellFormed(requests);
      RunEvolves(next, requests[1..]);
      EvolvesTransitive(records, next, Run(next, requests[1..]));
    }
  }

  /** Every reachable collection keeps at most one pending code per e-mail,
      and only ever grows and moves records from pending to used. */
  lemma {:induction false} RunKeepsInvariant(records: seq<UserCode>, requests: seq<Request>)
    requires AllWellFormed(requests)
    requires OnePendingPerEmail(records)
    ensures OnePendingPerEmail(Run(records, requests))
    ensures Evolves(records, Run(records, requests))
    decreases |requests|
  {
    RunEvolves(records, requests);
    if requests != [] {
      ApplyEvolves(records, requests[0]);
      TailWellFormed(requests);
      RunKeepsInvariant(Apply(records, requests[0]), requests[1..]);
    }
  }

  /** A used record is frozen: no later request changes any of its fields. */
  lemma UsedRecordFrozen(records: seq<UserCode>, requests: seq<Request>, i: nat)
    requires AllWellFormed(requests)
    requires i < |records| && records[i].status == Used
    ensures i < |Run(records, requests)| && Run(records, requests)[i] == records[i]
  {
    RunEvolves(records, requests);
  }

  /** Each code is redeemed at most once, and a code already used never again. */
  lemma {:induction false} RedeemedAtMostOnce(records: seq<UserCode>, requests: seq<Request>, i: nat)
    requires AllWellFormed(requests)
    ensures RedemptionsOf(records, requests, i) <= 1
    ensures i < |records| && records[i].status == Used ==> RedemptionsOf(records, requests, i) == 0
    decreases |requests|
  {
    if requests != [] {
      var next := Apply(records, requests[0]);
      ApplyEvolves(records, requests[0]);
      TailWellFormed(requests);
      RedeemedAtMostOnce(next, requests[1..], i);
      if i < |records| && records[i].status == Used {
        assert next[i] == records[i];
      }
    }
  }

  /** The code an admin issued is still accepted when the user types it in
      lower case: the upper-cased text finds its pending record, which is
      the only pending one for that e-mail. */
  lemma {:induction false} LowercaseCodeRedeems(records: seq<UserCode>, i: nat, auth: AuthService,
                                                passwordBytes: seq<byte>, newUid: Uid, now: nat)
    requires OnePendingPerEmail(records)
    requires i < |records| && records[i].status == Pending && records[i].email != ""
    requires |records[i].code| == CodeLength
    requires forall k :: 0 <= k < |records[i].code| ==> IsCodeSymbol(records[i].code[k])
    requires now <= records[i].expiresAt && auth.accountsReachable
    requires |passwordBytes| == TempPasswordBytes
    ensures var req := VerifyRequest(Some(VerifyBody(Some(records[i].email), Some(ToLower(records[i].code)))));
      var s := VerifyCodeStep(records, req, auth, passwordBytes, newUid, now);
      s.reply.Success? && s.records[i].status == Used &&
      forall k :: 0 <= k < |records| && k != i ==> s.records[k] == records[k]
  {
    var email, code := records[i].email, records[i].code;
    UpperOfLowerCode(code);
    assert ToLower(code) != "" by { assert |ToLower(code)| == CodeLength; }
    var m := FirstMatch(records, email, ToUpper(ToLower(code)));
    assert Matches(records[i], email, code);
    assert m.Some? && m.value == i;
  }
}
