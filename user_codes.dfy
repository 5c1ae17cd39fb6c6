/** The `userCodes` collection: one-time sign-up codes an admin issues
    (src/app/api/admin/create-user/route.ts) and a new user redeems
    (src/app/api/auth/verify-code/route.ts). The collection is a sequence of
    records in insertion order; a record is never
    deleted, and the only change ever made to one is pending -> used. */
module UserCodes {
  import opened Wrappers
  import opened FirebaseAuth

  datatype CodeStatus = Pending | Used

  datatype UserCode = UserCode(
    id: string,
    email: string,
    displayName: Option<string>,
    code: string,
    createdBy: Uid,
    createdAt: nat,      // milliseconds
    status: CodeStatus,
    expiresAt: nat,      // milliseconds
    usedAt: Option<nat>,
    userId: Option<Uid>)

  /** A route's answer together with the collection it leaves behind. */
  datatype Step<T> = Step(reply: Reply<T>, records: seq<UserCode>)

  /** The lifetime of a code. */
  const CodeLifetime: nat := SevenDaysMs

  /** `!value` on a request field: absent or the empty string. */
  predicate IsMissing(value: Option<string>) {
    value.None? || value.value == ""
  }

  /** The query `email == e && status == "pending"` is not empty. */
  predicate HasPending(records: seq<UserCode>, email: string) {
    exists i :: 0 <= i < |records| && records[i].email == email && records[i].status == Pending
  }

  /** The invariant the create route's guard maintains. */
  ghost predicate OnePendingPerEmail(records: seq<UserCode>) {
    forall i, j :: 0 <= i < j < |records| && records[i].status == Pending && records[j].status == Pending
      ==> records[i].email != records[j].email
  }

  /** The filter of the redeem query. */
  predicate Matches(r: UserCode, email: string, code: string) {
    r.email == email && r.code == code && r.status == Pending
  }

  /** The first record at or after `from` that passes the redeem query's filter. */
  function FirstMatchFrom(records: seq<UserCode>, email: string, code: string, from: nat): (r: Option<nat>)
    requires from <= |records|
    ensures r.Some? ==> from <= r.value < |records| && Matches(records[r.value], email, code)
    ensures r.Some? ==> forall k :: from <= k < r.value ==> !Matches(records[k], email, code)
    ensures r.None? ==> forall k :: from <= k < |records| ==> !Matches(records[k], email, code)
    decreases |records| - from
  {
    if from == |records| then None
    else if Matches(records[from], email, code) then Some(from)
    else FirstMatchFrom(records, email, code, from + 1)
  }

  /** `docs[0]` of the redeem query. */
  function FirstMatch(records: seq<UserCode>, email: string, code: string): (r: Option<nat>)
    ensures r.Some? ==> r.value < |records| && Matches(records[r.value], email, code)
    ensures r.Some? ==> forall k :: 0 <= k < r.value ==> !Matches(records[k], email, code)
    ensures r.None? <==> forall k :: 0 <= k < |records| ==> !Matches(records[k], email, code)
  {
    FirstMatchFrom(records, email, code, 0)
  }

  /** The update the redeem route writes: status, usedAt and userId; nothing else. */
  function Redeemed(r: UserCode, uid: Uid, now: nat): UserCode {
    r.(status := Used, usedAt := Some(now), userId := Some(uid))
  }

  /** One record moved from pending to used; its other fields are kept. */
  ghost predicate IsRedemptionOf(before: UserCode, after: UserCode) {
    before.status == Pending && after.status == Used &&
    after == before.(status := Used, usedAt := after.usedAt, userId := after.userId)
  }

  /** What either route may do to the collection: append records, and move
      pending records to used. */
  ghost predicate Evolves(before: seq<UserCode>, after: seq<UserCode>) {
    |before| <= |after| &&
    forall i :: 0 <= i < |before| ==> after[i] == before[i] || IsRedemptionOf(before[i], after[i])
  }

  lemma EvolvesTransitive(a: seq<UserCode>, b: seq<UserCode>, c: seq<UserCode>)
    requires Evolves(a, b) && Evolves(b, c)
    ensures Evolves(a, c)
  {
    forall i | 0 <= i < |a|
      ensures c[i] == a[i] || IsRedemptionOf(a[i], c[i])
    {
      if b[i] != a[i] {
        assert IsRedemptionOf(a[i], b[i]);
        assert c[i] == b[i];
      }
    }
  }
}
