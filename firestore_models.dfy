/** The stored status enums of the family store and the string paths under
    which its documents live (src/lib/firestore/models.ts). A path is a `/`-separated list
    of segments: collection name, document id, sub-collection name, ... */
module FirestoreModels {
  import opened Wrappers

  /** The status of an invite under `families/{f}/invites`. */
  datatype InviteStatus = Active | Revoked | Used

  /** The status of a puzzle. */
  datatype PuzzleStatus = Draft | Published

  /* ---------- status enums as stored strings ---------- */

  function InviteStatusName(s: InviteStatus): string {
    match s
    case Active => "active"
    case Revoked => "revoked"
    case Used => "used"
  }

  /** Reads a stored invite status; only the three names of the enum are accepted. */
  function ParseInviteStatus(name: string): (r: Option<InviteStatus>)
    ensures r.Some? <==> name == "active" || name == "revoked" || name == "used"
    ensures r.Some? ==> InviteStatusName(r.value) == name
  {
    if name == "active" then Some(Active)
    else if name == "revoked" then Some(Revoked)
    else if name == "used" then Some(Used)
    else None
  }

  lemma InviteStatusRoundTrip(s: InviteStatus)
    ensures ParseInviteStatus(InviteStatusName(s)) == Some(s)
  {
    match s
    case Active =>
    case Revoked =>
      assert InviteStatusName(s) != "active";
    case Used =>
      assert InviteStatusName(s) != "active";
      assert InviteStatusName(s) != "revoked";
  }

  function PuzzleStatusName(s: PuzzleStatus): string {
    match s
    case Draft => "draft"
    case Published => "published"
  }

  /** Reads a stored puzzle status; only "draft" and "published" are accepted. */
  function ParsePuzzleStatus(name: string): (r: Option<PuzzleStatus>)
    ensures r.Some? <==> name == "draft" || name == "published"
    ensures r.Some? ==> PuzzleStatusName(r.value) == name
  {
    if name == "draft" then Some(Draft)
    else if name == "published" then Some(Published)
    else None
  }

  lemma PuzzleStatusRoundTrip(s: PuzzleStatus)
    ensures ParsePuzzleStatus(PuzzleStatusName(s)) == Some(s)
  {
    match s
    case Draft =>
    case Published =>
      assert PuzzleStatusName(s) != "draft";
  }

  /* ---------- segments ---------- */

  /** An id that is a single path segment. */
  predicate IsSegment(id: string) {
    '/' !in id
  }

  /** Joins segments with `/`. */
  function Join(segments: seq<string>): string
    requires |segments| >= 1
  {
    if |segments| == 1 then segments[0]
    else segments[0] + "/" + Join(segments[1..])
  }

  /** Splits a path at every `/`, as JavaScript's `split("/")` does. */
  function Split(path: string): (segments: seq<string>)
    ensures |segments| >= 1
  {
    if path == [] then [""]
    else
      var rest := Split(path[1..]);
      if path[0] == '/' then [""] + rest
      else [[path[0]] + rest[0]] + rest[1..]
  }

  lemma {:induction false} SplitSegment(a: string)
    requires IsSegment(a)
    ensures Split(a) == [a]
  {
    if a != [] {
      assert IsSegment(a[1..]);
      SplitSegment(a[1..]);
      assert [a[0]] + a[1..] == a;
    }
  }

  lemma {:induction false} SplitAfterSegment(a: string, b: string)
    requires IsSegment(a)
    ensures Split(a + "/" + b) == [a] + Split(b)
  {
    if a == [] {
      assert a + "/" + b == "/" + b;
      assert ("/" + b)[1..] == b;
    } else {
      assert IsSegment(a[1..]);
      SplitAfterSegment(a[1..], b);
      assert (a + "/" + b)[1..] == a[1..] + "/" + b;
      assert [a[0]] + a[1..] == a;
    }
  }

  /** Splitting undoes joining as long as no segment contains `/`. */
  lemma {:induction false} SplitJoin(segments: seq<string>)
    requires |segments| >= 1
    requires forall i :: 0 <= i < |segments| ==> IsSegment(segments[i])
    ensures Split(Join(segments)) == segments
  {
    if |segments| == 1 {
      SplitSegment(segments[0]);
    } else {
      SplitJoin(segments[1..]);
      SplitAfterSegment(segments[0], Join(segments[1..]));
      assert [segments[0]] + segments[1..] == segments;
    }
  }

  lemma JoinFour(a: string, b: string, c: string, d: string)
    ensures Join([a, b, c, d]) == a + "/" + b + "/" + c + "/" + d
  {
    assert [a, b, c, d][1..] == [b, c, d] && [b, c, d][1..] == [c, d] && [c, d][1..] == [d];
    assert Join([c, d]) == c + "/" + d;
    assert Join([b, c, d]) == b + "/" + (c + "/" + d);
    assert Join([a, b, c, d]) == a + "/" + (b + "/" + (c + "/" + d));
  }

  /* ---------- path builders ---------- */

  const FamiliesCollection: string := "families"
  const InvitesCollection: string := "invites"
  const PuzzlesCollection: string := "puzzles"
  const InviteTokensCollection: string := "inviteTokens"
  const FamilyMembersCollection: string := "members"

  function FamilyDocPath(familyId: string): (p: string)
    ensures |p| == |FamiliesCollection| + 1 + |familyId|
    ensures p[..9] == "families/" && p[9..] == familyId
  {
    FamiliesCollection + "/" + familyId
  }

  function InviteDocPath(familyId: string, inviteId: string): (p: string)
    ensures var prefix := FamilyDocPath(familyId) + "/";
      |prefix| <= |p| && p[..|prefix|] == prefix
    ensures var suffix := "/invites/" + inviteId;
      |suffix| <= |p| && p[|p| - |suffix|..] == suffix
  {
    FamilyDocPath(familyId) + "/" + InvitesCollection + "/" + inviteId
  }

  function PuzzleDocPath(familyId: string, puzzleId: string): (p: string)
    ensures var prefix := FamilyDocPath(familyId) + "/";
      |prefix| <= |p| && p[..|prefix|] == prefix
    ensures var suffix := "/puzzles/" + puzzleId;
      |suffix| <= |p| && p[|p| - |suffix|..] == suffix
  {
    FamilyDocPath(familyId) + "/" + PuzzlesCollection + "/" + puzzleId
  }

  function InviteTokenPath(token: string): (p: string)
    ensures |p| == 13 + |token| && p[..13] == "inviteTokens/" && p[13..] == token
  {
    InviteTokensCollection + "/" + token
  }

  function FamilyMemberPath(familyId: string, userId: string): (p: string)
    ensures var prefix := FamilyDocPath(familyId) + "/";
      |prefix| <= |p| && p[..|prefix|] == prefix
    ensures var suffix := "/members/" + userId;
      |suffix| <= |p| && p[|p| - |suffix|..] == suffix
  {
    FamilyDocPath(familyId) + "/" + FamilyMembersCollection + "/" + userId
  }

  /* ---------- segment structure ---------- */

  lemma FamilyDocPathSegments(familyId: string)
    requires IsSegment(familyId)
    ensures Split(FamilyDocPath(familyId)) == ["families", familyId]
  {
    assert FamilyDocPath(familyId) == Join(["families", familyId]);
    SplitJoin(["families", familyId]);
  }

  lemma InviteDocPathSegments(familyId: string, inviteId: string)
    requires IsSegment(familyId) && IsSegment(inviteId)
    ensures Split(InviteDocPath(familyId, inviteId)) == ["families", familyId, "invites", inviteId]
  {
    var segments := ["families", familyId, "invites", inviteId];
    JoinFour("families", familyId, "invites", inviteId);
    assert InviteDocPath(familyId, inviteId) == Join(segments);
    SplitJoin(segments);
  }

  lemma PuzzleDocPathSegments(familyId: string, puzzleId: string)
    requires IsSegment(familyId) && IsSegment(puzzleId)
    ensures Split(PuzzleDocPath(familyId, puzzleId)) == ["families", familyId, "puzzles", puzzleId]
  {
    var segments := ["families", familyId, "puzzles", puzzleId];
    JoinFour("families", familyId, "puzzles", puzzleId);
    assert PuzzleDocPath(familyId, puzzleId) == Join(segments);
    SplitJoin(segments);
  }

  lemma InviteTokenPathSegments(token: string)
    requires IsSegment(token)
    ensures Split(InviteTokenPath(token)) == ["inviteTokens", token]
  {
    assert InviteTokenPath(token) == Join(["inviteTokens", token]);
    SplitJoin(["inviteTokens", token]);
  }

  /** A member path has exactly four segments. */
  lemma FamilyMemberPathSegments(familyId: string, userId: string)
    requires IsSegment(familyId) && IsSegment(userId)
    ensures Split(FamilyMemberPath(familyId, userId)) == ["families", familyId, "members", userId]
    ensures |Split(FamilyMemberPath(familyId, userId))| == 4
  {
    var segments := ["families", familyId, "members", userId];
    JoinFour("families", familyId, "members", userId);
    assert FamilyMemberPath(familyId, userId) == Join(segments);
    SplitJoin(segments);
  }

  /* ---------- injectivity and disjointness ---------- */

  lemma FamilyDocPathInjective(f1: string, f2: string)
    requires FamilyDocPath(f1) == FamilyDocPath(f2)
    ensures f1 == f2
  {
    assert f1 == FamilyDocPath(f1)[9..];
  }

  lemma InviteDocPathInjective(f1: string, i1: string, f2: string, i2: string)
    requires IsSegment(f1) && IsSegment(i1) && IsSegment(f2) && IsSegment(i2)
    requires InviteDocPath(f1, i1) == InviteDocPath(f2, i2)
    ensures f1 == f2 && i1 == i2
  {
    InviteDocPathSegments(f1, i1);
    InviteDocPathSegments(f2, i2);
  }

  lemma PuzzleDocPathInjective(f1: string, p1: string, f2: string, p2: string)
    requires IsSegment(f1) && IsSegment(p1) && IsSegment(f2) && IsSegment(p2)
    requires PuzzleDocPath(f1, p1) == PuzzleDocPath(f2, p2)
    ensures f1 == f2 && p1 == p2
  {
    PuzzleDocPathSegments(f1, p1);
    PuzzleDocPathSegments(f2, p2);
  }

  lemma InviteTokenPathInjective(t1: string, t2: string)
    requires InviteTokenPath(t1) == InviteTokenPath(t2)
    ensures t1 == t2
  {
    assert t1 == InviteTokenPath(t1)[13..];
  }

  lemma FamilyMemberPathInjective(f1: string, u1: string, f2: string, u2: string)
    requires IsSegment(f1) && IsSegment(u1) && IsSegment(f2) && IsSegment(u2)
    requires FamilyMemberPath(f1, u1) == FamilyMemberPath(f2, u2)
    ensures f1 == f2 && u1 == u2
  {
    FamilyMemberPathSegments(f1, u1);
    FamilyMemberPathSegments(f2, u2);
  }

  /** Invites, puzzles and members of families never share a document path. */
  lemma FamilySubcollectionsDisjoint(f1: string, id1: string, f2: string, id2: string)
    requires IsSegment(f1) && IsSegment(id1) && IsSegment(f2) && IsSegment(id2)
    ensures InviteDocPath(f1, id1) != PuzzleDocPath(f2, id2)
    ensures InviteDocPath(f1, id1) != FamilyMemberPath(f2, id2)
    ensures PuzzleDocPath(f1, id1) != FamilyMemberPath(f2, id2)
  {
    InviteDocPathSegments(f1, id1);
    PuzzleDocPathSegments(f1, id1);
    PuzzleDocPathSegments(f2, id2);
    FamilyMemberPathSegments(f2, id2);
  }

  /** The top-level token path never collides with a family document or anything under it. */
  lemma InviteTokenPathTopLevel(token: string, familyId: string, id: string)
    ensures !(|InviteTokenPath(token)| >= 9 && InviteTokenPath(token)[..9] == "families/")
    ensures InviteTokenPath(token) != FamilyDocPath(familyId)
    ensures InviteTokenPath(token) != InviteDocPath(familyId, id)
    ensures InviteTokenPath(token) != PuzzleDocPath(familyId, id)
    ensures InviteTokenPath(token) != FamilyMemberPath(familyId, id)
  {
    assert InviteTokenPath(token)[0] == 'i';
    assert "families/"[0] == 'f';
    assert FamilyDocPath(familyId)[0] == 'f';
    assert InviteDocPath(familyId, id)[0] == 'f';
    assert PuzzleDocPath(familyId, id)[0] == 'f';
    assert FamilyMemberPath(familyId, id)[0] == 'f';
  }
}
