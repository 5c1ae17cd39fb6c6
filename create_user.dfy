/** The admin route that issues a sign-up code
    (src/app/api/admin/create-user/route.ts): code generation, the e-mail
    format test, and the guard chain ending in one insert into `userCodes`. */
module CreateUser {
  import opened Wrappers
  import opened FirebaseAuth
  import opened CheckAdmin
  import opened UserCodes

  /* ---------- code generation ---------- */

  /** 32 symbols; 0, O, 1 and I are left out because they look alike. */
  const CodeAlphabet: string := "ABCDEFGHJKLMNPQRSTUVWXYZ23456789"
  const CodeLength: nat := 8

  /** A value `Math.random()` can return. */
  predicate IsRandomDraw(r: real) {
    0.0 <= r < 1.0
  }

  predicate AreRandomDraws(draws: seq<real>) {
    forall i :: 0 <= i < |draws| ==> IsRandomDraw(draws[i])
  }

  /** JavaScript's `charAt`: the one-character string at `i`, or "" outside the string. */
  function CharAt(s: string, i: int): string {
    if 0 <= i < |s| then [s[i]] else ""
  }

  /** `Math.floor(r * chars.length)`. */
  function AlphabetIndex(r: real): (k: int)
    requires IsRandomDraw(r)
    ensures 0 <= k < |CodeAlphabet|
  {
    (r * (|CodeAlphabet| as real)).Floor
  }

  /** The code the generator builds from a sequence of draws, one symbol per draw. */
  function CodeFromDraws(draws: seq<real>): (code: string)
    requires AreRandomDraws(draws)
    ensures |code| == |draws|
    ensures forall i :: 0 <= i < |draws| ==> code[i] == CodeAlphabet[AlphabetIndex(draws[i])]
  {
    if draws == [] then ""
    else CodeFromDraws(draws[..|draws| - 1]) + CharAt(CodeAlphabet, AlphabetIndex(draws[|draws| - 1]))
  }

  predicate IsCodeSymbol(c: char) {
    ('A' <= c <= 'Z' && c != 'I' && c != 'O') || ('2' <= c <= '9')
  }

  lemma AlphabetSymbols()
    ensures |CodeAlphabet| == 32
    ensures forall i :: 0 <= i < |CodeAlphabet| ==> IsCodeSymbol(CodeAlphabet[i])
  {
  }

  /** `generateUserCode`, with the eight `Math.random()` results as input. */
  method GenerateUserCode(draws: seq<real>) returns (code: string)
    requires |draws| == CodeLength && AreRandomDraws(draws)
    ensures code == CodeFromDraws(draws)
    ensures |code| == CodeLength
    ensures forall i :: 0 <= i < |code| ==> IsCodeSymbol(code[i])
    ensures forall i :: 0 <= i < |code| ==> code[i] != '0' && code[i] != 'O' && code[i] != '1' && code[i] != 'I'
  {
    code := "";
    for i := 0 to CodeLength
      invariant code == CodeFromDraws(draws[..i])
    {
      assert draws[..i + 1][..i] == draws[..i];
      code := code + CharAt(CodeAlphabet, AlphabetIndex(draws[i]));
    }
    assert draws[..CodeLength] == draws;
    AlphabetSymbols();
  }

  /* ---------- e-mail format ---------- */

  /** The characters JavaScript's `\s` class matches. */
  predicate IsJsWhitespace(c: char) {
    var n := c as int;
    n == 0x09 || n == 0x0A || n == 0x0B || n == 0x0C || n == 0x0D || n == 0x20 ||
    n == 0xA0 || n == 0x1680 || (0x2000 <= n <= 0x200A) || n == 0x2028 || n == 0x2029 ||
    n == 0x202F || n == 0x205F || n == 0x3000 || n == 0xFEFF
  }

  /** A character of the class `[^\s@]`. */
  predicate IsPlain(c: char) {
    !IsJsWhitespace(c) && c != '@'
  }

  predicate AllPlain(s: string) {
    forall i :: 0 <= i < |s| ==> IsPlain(s[i])
  }

  /** What `/^[^\s@]+@[^\s@]+\.[^\s@]+$/` accepts: some `@` and some later `.`
      cut the text into three non-empty runs of plain characters. */
  ghost predicate MatchesEmailPattern(s: string) {
    exists at: nat, dot: nat :: EmailCut(s, at, dot)
  }

  /** The `@` at `at` and the `.` at `dot` cut `s` as the pattern requires. */
  ghost predicate EmailCut(s: string, at: nat, dot: nat) {
    0 < at && at + 1 < dot && dot + 1 < |s| && s[at] == '@' && s[dot] == '.' &&
    AllPlain(s[..at]) && AllPlain(s[at + 1..dot]) && AllPlain(s[dot + 1..])
  }

  function IndexOf(s: string, c: char): (r: Option<nat>)
    ensures r.Some? ==> r.value < |s| && s[r.value] == c && c !in s[..r.value]
    ensures r.None? ==> c !in s
  {
    if s == [] then None
    else if s[0] == c then Some(0)
    else match IndexOf(s[1..], c)
      case None => None
      case Some(k) =>
        assert s[..k + 1] == [s[0]] + s[1..][..k];
        Some(k + 1)
  }

  /** The e-mail test the route runs: exactly one `@`, something before it,
      and a `.` in the domain with text on both sides; no whitespace anywhere. */
  predicate IsValidEmail(s: string) {
    match IndexOf(s, '@')
    case None => false
    case Some(at) =>
      var domain := s[at + 1..];
      0 < at && AllPlain(s[..at]) && |domain| >= 3 && AllPlain(domain) && '.' in domain[1..|domain| - 1]
  }

  lemma {:induction false} ValidEmailIsPattern(s: string)
    requires IsValidEmail(s)
    ensures MatchesEmailPattern(s)
  {
    var at := IndexOf(s, '@').value;
    var domain := s[at + 1..];
    assert 0 < at && AllPlain(s[..at]) && |domain| >= 3 && AllPlain(domain);
    var inner := domain[1..|domain| - 1];
    assert '.' in inner;
    var k :| 0 <= k < |inner| && inner[k] == '.';
    var dot := at + 2 + k;
    assert s[dot] == domain[k + 1] == inner[k];
    AllPlainSlice(domain, 0, k + 1);
    AllPlainSlice(domain, k + 2, |domain|);
    assert s[at + 1..dot] == domain[0..k + 1];
    assert s[dot + 1..] == domain[k + 2..|domain|];
    assert 0 < at && at + 1 < dot && dot + 1 < |s| && s[at] == '@' && s[dot] == '.';
    assert AllPlain(s[..at]) && AllPlain(s[at + 1..dot]) && AllPlain(s[dot + 1..]);
    assert EmailCut(s, at, dot);
  }

  lemma AllPlainSlice(s: string, i: nat, j: nat)
    requires AllPlain(s) && i <= j <= |s|
    ensures AllPlain(s[i..j])
  {
    forall k | 0 <= k < j - i ensures IsPlain(s[i..j][k]) {
      assert s[i..j][k] == s[i + k];
    }
  }

  lemma {:induction false} IndexOfFirst(s: string, c: char, at: nat)
    requires at < |s| && s[at] == c && c !in s[..at]
    ensures IndexOf(s, c) == Some(at)
  {
    if at > 0 {
      assert s[0] == s[..at][0];
      assert s[1..][..at - 1] == s[1..at];
      assert forall x :: x in s[1..at] ==> x in s[..at];
      IndexOfFirst(s[1..], c, at - 1);
    }
  }

  lemma SliceAround(s: string, i: nat, j: nat)
    requires i <= j < |s|
    ensures s[i..] == s[i..j] + [s[j]] + s[j + 1..]
  {
  }

  lemma AllPlainAround(a: string, c: char, b: string)
    requires AllPlain(a) && IsPlain(c) && AllPlain(b)
    ensures AllPlain(a + [c] + b)
  {
    var joined := a + [c] + b;
    forall i | 0 <= i < |joined| ensures IsPlain(joined[i]) {
      if i < |a| {
        assert joined[i] == a[i];
      } else if i > |a| {
        assert joined[i] == b[i - |a| - 1];
      }
    }
  }

  lemma {:induction false} PatternIsValidEmail(s: string)
    requires MatchesEmailPattern(s)
    ensures IsValidEmail(s)
  {
    var at: nat, dot: nat :| EmailCut(s, at, dot);
    NoAtInPlain(s[..at]);
    IndexOfFirst(s, '@', at);
    PlainDomain(s, at, dot);
    ValidEmailFromParts(s, at);
  }

  /** The text after the `@` of a pattern match is a valid domain part. */
  lemma PlainDomain(s: string, at: nat, dot: nat)
    requires EmailCut(s, at, dot)
    ensures var domain := s[at + 1..];
      |domain| >= 3 && AllPlain(domain) && '.' in domain[1..|domain| - 1]
  {
    var domain := s[at + 1..];
    SliceAround(s, at + 1, dot);
    AllPlainAround(s[at + 1..dot], '.', s[dot + 1..]);
    DotInside(domain, dot - at - 1);
  }

  lemma ValidEmailFromParts(s: string, at: nat)
    requires IndexOf(s, '@') == Some(at) && 0 < at && AllPlain(s[..at])
    requires var domain := s[at + 1..];
      |domain| >= 3 && AllPlain(domain) && '.' in domain[1..|domain| - 1]
    ensures IsValidEmail(s)
  {
  }

  lemma NoAtInPlain(s: string)
    requires AllPlain(s)
    ensures '@' !in s
  {
    forall i | 0 <= i < |s| ensures s[i] != '@' {
      assert IsPlain(s[i]);
    }
  }

  lemma DotInside(domain: string, k: nat)
    requires 0 < k < |domain| - 1 && domain[k] == '.'
    ensures '.' in domain[1..|domain| - 1]
  {
    assert domain[1..|domain| - 1][k - 1] == '.';
  }

  /** The route's e-mail test accepts exactly the texts the regular expression accepts. */
  lemma EmailCheckIsRegex(s: string)
    ensures IsValidEmail(s) <==> MatchesEmailPattern(s)
  {
    if IsValidEmail(s) { ValidEmailIsPattern(s); }
    if MatchesEmailPattern(s) { PatternIsValidEmail(s); }
  }

  /* ---------- the route ---------- */

  datatype CreateUserBody = CreateUserBody(email: Option<string>, displayName: Option<string>)

  /** The request: its Authorization header, and its JSON body (None when
      the body does not parse). */
  datatype CreateUserRequest = CreateUserRequest(authorization: Option<string>, body: Option<CreateUserBody>)

  /** The success body: the new document's id, the e-mail and the code. */
  datatype CodeIssued = CodeIssued(id: string, email: string, code: string)

  /** `displayName || null`. */
  function OrNull(value: Option<string>): (r: Option<string>)
    ensures r.Some? ==> r.value != ""
    ensures !IsMissing(value) ==> r == value
    ensures IsMissing(value) ==> r.None?
  {
    if IsMissing(value) then None else value
  }

  /** The document the route inserts. */
  function IssuedRecord(id: string, email: string, displayName: Option<string>, code: string,
                        createdBy: Uid, now: nat): UserCode
  {
    UserCode(id, email, OrNull(displayName), code, createdBy, now, Pending, now + CodeLifetime, None, None)
  }

  /** The route past its guards: an admin's parsed body, checked and, for a
      new e-mail, recorded as a pending code made by `caller`. */
  function IssueCode(records: seq<UserCode>, body: CreateUserBody, auth: AuthService, caller: Uid,
                     draws: seq<real>, newId: string, now: nat): (s: Step<CodeIssued>)
    requires |draws| == CodeLength && AreRandomDraws(draws)
    ensures s.reply.Failure? ==> s.records == records
    ensures s.reply.Failure? ==> s.reply.status == BadRequest || s.reply.status == InternalError
    ensures IsMissing(body.email) ==> s.reply == Failure(BadRequest, "Email is required")
    ensures !IsMissing(body.email) ==>
      var email := body.email.value;
      && (!IsValidEmail(email) ==> s.reply == Failure(BadRequest, "Invalid email format"))
      && (IsValidEmail(email) && HasPending(records, email) ==>
            s.reply == Failure(BadRequest, "A pending code already exists for this email"))
      && (IsValidEmail(email) && !HasPending(records, email) ==>
            && (auth.accountsReachable && email in auth.accounts ==>
                  s.reply == Failure(BadRequest, "A user with this email already exists"))
            && (!auth.accountsReachable ==> s.reply == Failure(InternalError, "Failed to create user code"))
            && (auth.accountsReachable && email !in auth.accounts ==> s.reply.Success?))
    ensures s.reply.Success? ==>
      !IsMissing(body.email) &&
      var email := body.email.value;
      && IsValidEmail(email)
      && !HasPending(records, email)
      && s.records == records + [IssuedRecord(newId, email, body.displayName, CodeFromDraws(draws), caller, now)]
      && s.reply.body == CodeIssued(newId, email, CodeFromDraws(draws))
    ensures OnePendingPerEmail(records) ==> OnePendingPerEmail(s.records)
  {
    if IsMissing(body.email) then
      Step(Failure(BadRequest, "Email is required"), records)
    else
      var email := body.email.value;
      if !IsValidEmail(email) then
        Step(Failure(BadRequest, "Invalid email format"), records)
      else if HasPending(records, email) then
        Step(Failure(BadRequest, "A pending code already exists for this email"), records)
      else
        match GetUserByEmail(auth, email)
        case AccountFound(_) => Step(Failure(BadRequest, "A user with this email already exists"), records)
        case AccountLookupFailed => Step(Failure(InternalError, "Failed to create user code"), records)
        case AccountNotFound =>
          var code := CodeFromDraws(draws);
          var added := IssuedRecord(newId, email, body.displayName, code, caller, now);
          Step(Success(CodeIssued(newId, email, code)), records + [added])
  }

  /** The whole route as a transition of the `userCodes` collection.
      `profiles`/`profilesReadable` is what `isUserAdmin` reads, `draws` the
      eight `Math.random()` results, `newId` the id `doc()` assigns, and
      `now` the clock. */
  function CreateUserStep(records: seq<UserCode>, req: CreateUserRequest, auth: AuthService,
                          profiles: map<Uid, Profile>, profilesReadable: bool,
                          draws: seq<real>, newId: string, now: nat): (s: Step<CodeIssued>)
    requires |draws| == CodeLength && AreRandomDraws(draws)
    // a rejected request writes nothing
    ensures s.reply.Failure? ==> s.records == records
    // header absent or not "Bearer ...": 401
    ensures ExtractBearer(req.authorization).None? ==> s.reply.Failure? && s.reply.status == Unauthorized
    // the caller is authenticated but not an admin: 403
    ensures Authenticate(req.authorization, auth).Success? &&
            !IsUserAdmin(ReadProfile(profiles, Authenticate(req.authorization, auth).body.uid, profilesReadable))
            ==> s.reply == Failure(Forbidden, "Forbidden - Admin access required")
    // a 400 names a missing or malformed e-mail, a pending code, or an existing account
    ensures s.reply.Success? || s.reply.status != BadRequest ||
            (req.body.Some? && (IsMissing(req.body.value.email) || !IsValidEmail(req.body.value.email.value) ||
             HasPending(records, req.body.value.email.value) || req.body.value.email.value in auth.accounts))
    // success: exactly one record added, pending, made by the caller, expiring in seven days
    ensures s.reply.Success? ==>
      req.body.Some? && !IsMissing(req.body.value.email) &&
      var caller := Authenticate(req.authorization, auth);
      var email := req.body.value.email.value;
      && caller.Success?
      && IsUserAdmin(ReadProfile(profiles, caller.body.uid, profilesReadable))
      && IsValidEmail(email)
      && !HasPending(records, email)
      && |s.records| == |records| + 1 && s.records[..|records|] == records
      && var added := s.records[|records|];
         added.status == Pending && added.email == email && added.id == newId &&
         added.createdBy == caller.body.uid && added.createdAt == now &&
         added.expiresAt == now + CodeLifetime &&
         added.code == CodeFromDraws(draws) && added.displayName == OrNull(req.body.value.displayName) &&
         s.reply.body == CodeIssued(newId, email, added.code)
    // an admin's well-formed request: refused while a code is pending, accepted for a new e-mail
    ensures var caller := Authenticate(req.authorization, auth);
      caller.Success? && IsUserAdmin(ReadProfile(profiles, caller.body.uid, profilesReadable)) &&
      req.body.Some? && !IsMissing(req.body.value.email) && IsValidEmail(req.body.value.email.value) ==>
        var email := req.body.value.email.value;
        && (HasPending(records, email) ==>
              s.reply == Failure(BadRequest, "A pending code already exists for this email"))
        && (!HasPending(records, email) && auth.accountsReachable && email !in auth.accounts ==> s.reply.Success?)
    // a refused caller: the 401 of the Bearer guard, carried over
    ensures Authenticate(req.authorization, auth).Failure? ==>
      s.reply == Failure(Unauthorized, Authenticate(req.authorization, auth).error)
    // an admin's parsed body: missing e-mail, malformed e-mail, existing account
    ensures var caller := Authenticate(req.authorization, auth);
      caller.Success? && IsUserAdmin(ReadProfile(profiles, caller.body.uid, profilesReadable)) && req.body.Some? ==>
        var email := req.body.value.email;
        && (IsMissing(email) ==> s.reply == Failure(BadRequest, "Email is required"))
        && (!IsMissing(email) && !IsValidEmail(email.value) ==> s.reply == Failure(BadRequest, "Invalid email format"))
        && (!IsMissing(email) && IsValidEmail(email.value) && !HasPending(records, email.value) &&
            auth.accountsReachable && email.value in auth.accounts ==>
              s.reply == Failure(BadRequest, "A user with this email already exists"))
        // the account lookup throws another error than "not found": 500, nothing written
        && (!IsMissing(email) && IsValidEmail(email.value) && !HasPending(records, email.value) &&
            !auth.accountsReachable ==>
              s.reply == Failure(InternalError, "Failed to create user code") && s.records == records)
    // an admin's body that does not parse: `request.json()` throws, 500
    ensures var caller := Authenticate(req.authorization, auth);
      caller.Success? && IsUserAdmin(ReadProfile(profiles, caller.body.uid, profilesReadable)) && req.body.None? ==>
        s.reply == Failure(InternalError, "Failed to create user code") && s.records == records
    // the invariant of the collection is kept
    ensures OnePendingPerEmail(records) ==> OnePendingPerEmail(s.records)
  {
    match Authenticate(req.authorization, auth)
    case Failure(status, error) => Step(Failure(status, error), records)
    case Success(caller) =>
      if !IsUserAdmin(ReadProfile(profiles, caller.uid, profilesReadable)) then
        Step(Failure(Forbidden, "Forbidden - Admin access required"), records)
      else if req.body.None? then
        Step(Failure(InternalError, "Failed to create user code"), records)
      else
        IssueCode(records, req.body.value, auth, caller.uid, draws, newId, now)
  }
}
