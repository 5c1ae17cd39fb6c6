/** Profile documents and the admin test of src/lib/auth/check-admin.ts.
    A profile is a free-form document: field name to stored value. */
module CheckAdmin {
  import opened Wrappers
  import opened FirebaseAuth

  /** The values a document field can hold, compared as JavaScript `===`
      compares them: a boolean is never equal to a string. */
  datatype Value = Null | Bool(b: bool) | Number(n: int) | Text(s: string) | Timestamp(ms: int)

  type Profile = map<string, Value>

  /** The outcome of reading `profiles/{uid}`. */
  datatype ProfileLookup = Found(profile: Profile) | NotFound | ReadFailed

  function ReadProfile(profiles: map<Uid, Profile>, uid: Uid, readable: bool): (r: ProfileLookup)
    ensures r.Found? <==> readable && uid in profiles
    ensures r.Found? ==> r.profile == profiles[uid]
    ensures r.ReadFailed? <==> !readable
  {
    if !readable then ReadFailed
    else if uid in profiles then Found(profiles[uid])
    else NotFound
  }

  /** `profile?.field`: the stored value, or None for an absent field. */
  function Field(profile: Profile, name: string): Option<Value> {
    if name in profile then Some(profile[name]) else None
  }

  predicate HasAdminFlag(profile: Profile) {
    Field(profile, "isAdmin") == Some(Bool(true))
  }

  predicate HasAdminRole(profile: Profile) {
    Field(profile, "role") == Some(Text("admin"))
  }

  /** `isUserAdmin`: a missing profile or a failed read is never admin. */
  function IsUserAdmin(lookup: ProfileLookup): (admin: bool)
    ensures admin ==> lookup.Found?
    // strict equality: the boolean true under `isAdmin`, or the text "admin" under `role`
    ensures admin <==>
      && lookup.Found?
      && (|| ("isAdmin" in lookup.profile && lookup.profile["isAdmin"] == Bool(true))
          || ("role" in lookup.profile && lookup.profile["role"] == Text("admin")))
  {
    match lookup
    case NotFound => false
    case ReadFailed => false
    case Found(profile) => HasAdminFlag(profile) || HasAdminRole(profile)
  }

  /** Equality is strict: `isAdmin` holding the text "true" does not make an admin. */
  lemma TextTrueIsNotAdmin(profile: Profile)
    requires Field(profile, "isAdmin") == Some(Text("true"))
    requires !HasAdminRole(profile)
    ensures !IsUserAdmin(Found(profile))
  {
  }

  /** Without either marker no profile is admin, whatever else it holds. */
  lemma NoMarkerIsNotAdmin(profile: Profile)
    requires !HasAdminFlag(profile) && !HasAdminRole(profile)
    ensures !IsUserAdmin(Found(profile))
  {
  }

  /** Either marker alone is enough, whatever the other field holds. */
  lemma EitherMarkerSuffices(profile: Profile)
    requires HasAdminFlag(profile) || HasAdminRole(profile)
    ensures IsUserAdmin(Found(profile))
  {
  }
}
