/** The route that makes the calling user an admin
    (src/app/api/admin/grant-self-admin/route.ts): authenticate the Bearer
    token, then merge `role`, `isAdmin` and `updatedAt` into the caller's
    own entry of the `profiles` collection. */
module GrantSelfAdmin {
  import opened Wrappers
  import opened FirebaseAuth
  import opened CheckAdmin
  import CreateUser
  import UserCodes

  /** The success body: the caller's uid and e-mail. */
  datatype Granted = Granted(userId: Uid, email: Option<string>)

  datatype GrantStep = GrantStep(reply: Reply<Granted>, profiles: map<Uid, Profile>)

  /** The three fields the route writes. */
  function AdminFields(now: int): (fields: Profile)
    ensures fields.Keys == {"role", "isAdmin", "updatedAt"}
    ensures HasAdminFlag(fields) && HasAdminRole(fields)
  {
    map["role" := Text("admin"), "isAdmin" := Bool(true), "updatedAt" := Timestamp(now)]
  }

  /** `ref.set(fields, { merge: true })` on a document that may not exist:
      the written fields replace theirs, every other stored field stays. */
  function MergeSet(existing: Option<Profile>, fields: Profile): (merged: Profile)
    ensures merged.Keys == existing.GetOr(map[]).Keys + fields.Keys
    ensures forall k :: k in fields ==> merged[k] == fields[k]
    ensures forall k :: k in existing.GetOr(map[]) && k !in fields ==> merged[k] == existing.GetOr(map[])[k]
  {
    existing.GetOr(map[]) + fields
  }

  /** The caller's profile after the grant: `{...profileData, role, isAdmin, updatedAt}` merged in. */
  function GrantedProfile(existing: Option<Profile>, now: int): (p: Profile)
    ensures IsUserAdmin(Found(p))
    ensures p.Keys == existing.GetOr(map[]).Keys + {"role", "isAdmin", "updatedAt"}
    ensures p["role"] == Text("admin") && p["isAdmin"] == Bool(true) && p["updatedAt"] == Timestamp(now)
    ensures forall k :: k in existing.GetOr(map[]) && k != "role" && k != "isAdmin" && k != "updatedAt" ==>
              p[k] == existing.GetOr(map[])[k]
  {
    var data := existing.GetOr(map[]);
    MergeSet(existing, data + AdminFields(now))
  }

  /** The whole route as a transition of the `profiles` collection;
      `profilesReadable` false stands for a failing read of the profile. */
  function GrantSelfAdminStep(profiles: map<Uid, Profile>, authorization: Option<string>,
                              auth: AuthService, profilesReadable: bool, now: int): (s: GrantStep)
    // header absent or not "Bearer ...", or token refused: 401 and nothing written
    ensures Authenticate(authorization, auth).Failure? ==>
              s.reply.Failure? && s.reply.status == Unauthorized && s.profiles == profiles
    ensures Authenticate(authorization, auth).Failure? ==>
              s.reply == Failure(Unauthorized, Authenticate(authorization, auth).error)
    // the caller's profile cannot be read: 500 and nothing written
    ensures Authenticate(authorization, auth).Success? && !profilesReadable ==>
              s.reply == Failure(InternalError, "Failed to grant admin role") && s.profiles == profiles
    ensures s.reply.Failure? ==> s.profiles == profiles
    // success: the caller is admin now; only the caller's entry changed, created if missing
    ensures s.reply.Success? ==>
      var caller := Authenticate(authorization, auth);
      && caller.Success?
      && s.reply.body == Granted(caller.body.uid, caller.body.email)
      && s.profiles.Keys == profiles.Keys + {caller.body.uid}
      && IsUserAdmin(ReadProfile(s.profiles, caller.body.uid, true))
      && s.profiles[caller.body.uid] ==
           GrantedProfile(if caller.body.uid in profiles then Some(profiles[caller.body.uid]) else None, now)
      && (forall u :: u in profiles && u != caller.body.uid ==> s.profiles[u] == profiles[u])
      && (caller.body.uid in profiles ==>
            forall k :: k in profiles[caller.body.uid] && k != "role" && k != "isAdmin" && k != "updatedAt" ==>
              k in s.profiles[caller.body.uid] && s.profiles[caller.body.uid][k] == profiles[caller.body.uid][k])
    // an authenticated caller whose profile can be read always succeeds
    ensures Authenticate(authorization, auth).Success? && profilesReadable ==> s.reply.Success?
  {
    match Authenticate(authorization, auth)
    case Failure(status, error) => GrantStep(Failure(status, error), profiles)
    case Success(caller) =>
      match ReadProfile(profiles, caller.uid, profilesReadable)
      case ReadFailed => GrantStep(Failure(InternalError, "Failed to grant admin role"), profiles)
      case NotFound =>
        GrantStep(Success(Granted(caller.uid, caller.email)), profiles[caller.uid := GrantedProfile(None, now)])
      case Found(profile) =>
        GrantStep(Success(Granted(caller.uid, caller.email)), profiles[caller.uid := GrantedProfile(Some(profile), now)])
  }

  class ProfileStore {
    var profiles: map<Uid, Profile>

    constructor (initial: map<Uid, Profile>)
      ensures profiles == initial
    {
      profiles := initial;
    }

    /** POST /api/admin/grant-self-admin. */
    method GrantSelfAdmin(authorization: Option<string>, auth: AuthService, profilesReadable: bool, now: int)
      returns (reply: Reply<Granted>)
      modifies this
      ensures var s := GrantSelfAdminStep(old(profiles), authorization, auth, profilesReadable, now);
        reply == s.reply && profiles == s.profiles
    {
      var caller := Authenticate(authorization, auth);
      if caller.Failure? {
        return Failure(caller.status, caller.error);
      }
      var uid := caller.body.uid;
      var read := ReadProfile(profiles, uid, profilesReadable);
      if read.ReadFailed? {
        return Failure(InternalError, "Failed to grant admin role");
      }
      var profileData := if read.Found? then Some(read.profile) else None;
      profiles := profiles[uid := GrantedProfile(profileData, now)];
      reply := Success(Granted(uid, caller.body.email));
    }
  }

  /** After a successful grant the same caller passes the admin guard of the
      create-user route: that route answers neither 401 nor 403. */
  lemma GrantThenCreateUser(profiles: map<Uid, Profile>, authorization: Option<string>, auth: AuthService,
                            now: int, records: seq<UserCodes.UserCode>, body: Option<CreateUser.CreateUserBody>,
                            draws: seq<real>, newId: string, issuedAt: nat)
    requires GrantSelfAdminStep(profiles, authorization, auth, true, now).reply.Success?
    requires |draws| == CreateUser.CodeLength && CreateUser.AreRandomDraws(draws)
    ensures var granted := GrantSelfAdminStep(profiles, authorization, auth, true, now).profiles;
      var s := CreateUser.CreateUserStep(records, CreateUser.CreateUserRequest(authorization, body), auth,
                                         granted, true, draws, newId, issuedAt);
      s.reply.Success? || (s.reply.status != Unauthorized && s.reply.status != Forbidden)
  {
    var granted := GrantSelfAdminStep(profiles, authorization, auth, true, now).profiles;
    var uid := Authenticate(authorization, auth).body.uid;
    assert IsUserAdmin(ReadProfile(granted, uid, true));
  }
}
