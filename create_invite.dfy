/** The command-line script that mints a shareable invite (scripts/createInvite.js):
    a random hex token, an `inviteTokens` document keyed by that token, and
    the URL `<base>/invite/<token>` that is printed for sharing. */
module CreateInvite {
  import opened Wrappers
  import opened Hex
  import Models = FirestoreModels

  /** Five random bytes, ten hex characters. */
  const TokenBytes: nat := 5
  /** The lifetime of an invite token. */
  const InviteLifetime: nat := SevenDaysMs
  const DefaultFamilyId: string := "miller-family"
  const DefaultFamilyName: string := "Miller Crew"
  const DefaultLabel: string := "Family test link"
  const DefaultBaseUrl: string := "https://family-connections-e5uhyoeip-lotterys-projects-1f9a4a6c.vercel.app"
  const ScriptAuthor: string := "admin-script"

  /** The status of an `inviteTokens` document. The script writes `active`;
      the join flow later writes `expired` or `used`. */
  datatype TokenStatus = Active | Used | Expired

  function TokenStatusName(s: TokenStatus): string {
    match s
    case Active => "active"
    case Used => "used"
    case Expired => "expired"
  }

  /** Reads a stored token status; only the three names are accepted. */
  function ParseTokenStatus(name: string): (r: Option<TokenStatus>)
    ensures r.Some? <==> name == "active" || name == "used" || name == "expired"
    ensures r.Some? ==> TokenStatusName(r.value) == name
  {
    if name == "active" then Some(Active)
    else if name == "used" then Some(Used)
    else if name == "expired" then Some(Expired)
    else None
  }

  lemma TokenStatusRoundTrip(s: TokenStatus)
    ensures ParseTokenStatus(TokenStatusName(s)) == Some(s)
  {
    match s
    case Active =>
    case Used =>
      assert TokenStatusName(s) != "active";
    case Expired =>
      assert TokenStatusName(s) != "active";
      assert TokenStatusName(s) != "used";
  }

  /** A document of the top-level `inviteTokens` collection. `createdAt` is the
      store's own timestamp, `expiresAt` the script's clock plus seven days. */
  datatype InviteTokenDoc = InviteTokenDoc(
    token: string, familyId: string, familyName: string, labelText: string,
    status: TokenStatus, createdBy: string, createdAt: int, expiresAt: int)

  /** What the script prints: the token and the link to share. */
  datatype Minted = Minted(token: string, inviteUrl: string)

  /** `value || fallback` on an optional string: the fallback when absent or empty. */
  function OrDefault(value: Option<string>, fallback: string): (r: string)
    ensures value.Some? && value.value != "" ==> r == value.value
    ensures value.None? || value.value == "" ==> r == fallback
  {
    if value.Some? && value.value != "" then value.value else fallback
  }

  /** `process.argv[i] || fallback`; `argv` holds the interpreter and script path first. */
  function ArgOr(argv: seq<string>, i: nat, fallback: string): (r: string)
    ensures i < |argv| && argv[i] != "" ==> r == argv[i]
    ensures i >= |argv| || argv[i] == "" ==> r == fallback
  {
    OrDefault(if i < |argv| then Some(argv[i]) else None, fallback)
  }

  /** `randomBytes(5).toString("hex")`: ten lower-case hex digits that decode
      back to the bytes drawn, so one path segment. */
  function InviteToken(bytes: seq<byte>): (token: string)
    requires |bytes| == TokenBytes
    ensures |token| == 2 * TokenBytes && IsLowerHex(token)
    ensures FromHex(token) == Some(bytes)
    ensures Models.IsSegment(token)
  {
    FromHexToHex(bytes);
    var token := ToHex(bytes);
    assert forall k :: 0 <= k < |token| ==> token[k] != '/' by {
      forall k | 0 <= k < |token| ensures token[k] != '/' {
        assert IsHexDigit(token[k]);
      }
    }
    token
  }

  /** The record the script writes for a token, arguments from `argv[2..4]`. */
  function InviteRecord(token: string, argv: seq<string>, now: int, serverTime: int): (doc: InviteTokenDoc)
    ensures doc.token == token && TokenStatusName(doc.status) == "active"
    ensures doc.expiresAt == now + InviteLifetime
  {
    InviteTokenDoc(token, ArgOr(argv, 2, DefaultFamilyId), ArgOr(argv, 3, DefaultFamilyName),
                   ArgOr(argv, 4, DefaultLabel), Active, ScriptAuthor, serverTime, now + InviteLifetime)
  }

  function InviteUrl(baseUrl: string, token: string): string {
    baseUrl + "/invite/" + token
  }

  /** `split("/")` cut at any `/`: the split of the text before it followed by
      the split of the text after it. */
  lemma {:induction false} SplitAtSlash(p: string, k: nat)
    requires k < |p| && p[k] == '/'
    ensures Models.Split(p) == Models.Split(p[..k]) + Models.Split(p[k + 1..])
    decreases k
  {
    if k > 0 {
      var tail := p[1..];
      SplitAtSlash(tail, k - 1);
      assert tail[..k - 1] == p[..k][1..];
      assert tail[k..] == p[k + 1..];
      SplitHead(p[0], Models.Split(p[..k][1..]), Models.Split(p[k + 1..]));
    }
  }

  /** The first segment absorbs a leading non-`/` character, before or after appending. */
  lemma SplitHead(c: char, ra: seq<string>, sb: seq<string>)
    requires |ra| >= 1
    ensures [[c] + (ra + sb)[0]] + (ra + sb)[1..] == ([[c] + ra[0]] + ra[1..]) + sb
  {
    assert (ra + sb)[0] == ra[0] && (ra + sb)[1..] == ra[1..] + sb;
  }

  /** Where `a + "/" + b` is cut: the `/` after `a`, then `b`. */
  lemma CutAfter(a: string, b: string)
    ensures var p := a + "/" + b;
      |a| < |p| && p[|a|] == '/' && p[..|a|] == a && p[|a| + 1..] == b
  {
    var p := a + "/" + b;
    assert p[..|a|] == a;
    assert p[|a| + 1..] == b;
  }

  /** `split("/")` of two texts joined by a `/`. */
  lemma SplitJoined(a: string, b: string)
    ensures Models.Split(a + "/" + b) == Models.Split(a) + Models.Split(b)
  {
    CutAfter(a, b);
    SplitAtSlash(a + "/" + b, |a|);
  }

  /** The link is the base, the segment `invite` and the token, joined by `/`. */
  lemma UrlShape(baseUrl: string, token: string)
    ensures InviteUrl(baseUrl, token) == (baseUrl + "/" + "invite") + "/" + token
  {
    assert "/invite/" == "/" + "invite" + "/";
  }

  /** The link ends in the two segments `invite` and the token, whatever the
      base URL: the invite page reads the token back as its last segment. */
  lemma InviteUrlSegments(baseUrl: string, token: string)
    requires Models.IsSegment(token)
    ensures Models.Split(InviteUrl(baseUrl, token)) == Models.Split(baseUrl) + ["invite", token]
  {
    UrlShape(baseUrl, token);
    SplitJoined(baseUrl + "/" + "invite", token);
    SplitJoined(baseUrl, "invite");
    Models.SplitSegment("invite");
    Models.SplitSegment(token);
  }

  /** Every stored document sits under its own token. */
  ghost predicate KeyedByToken(tokens: map<string, InviteTokenDoc>) {
    forall t :: t in tokens ==> tokens[t].token == t
  }

  /** One run of `main` as a transition of the `inviteTokens` collection.
      `bytes` are the random bytes, `appUrl` the configured base URL,
      `now` the script's clock and `serverTime` the store's. */
  function CreateInviteStep(tokens: map<string, InviteTokenDoc>, bytes: seq<byte>, argv: seq<string>,
                            appUrl: Option<string>, now: int, serverTime: int): (s: (Minted, map<string, InviteTokenDoc>))
    requires |bytes| == TokenBytes
    // the token is ten hex digits that decode back to the bytes drawn
    ensures |s.0.token| == 2 * TokenBytes && IsLowerHex(s.0.token) && FromHex(s.0.token) == Some(bytes)
    // exactly the token's document is written, with the arguments or their defaults
    ensures s.1.Keys == tokens.Keys + {s.0.token}
    ensures forall t :: t in tokens && t != s.0.token ==> s.1[t] == tokens[t]
    ensures var doc := s.1[s.0.token];
      && doc.token == s.0.token && doc.status == Active && doc.createdBy == ScriptAuthor
      && doc.familyId == ArgOr(argv, 2, DefaultFamilyId)
      && doc.familyName == ArgOr(argv, 3, DefaultFamilyName)
      && doc.labelText == ArgOr(argv, 4, DefaultLabel)
      && doc.createdAt == serverTime && doc.expiresAt == now + InviteLifetime
    ensures KeyedByToken(tokens) ==> KeyedByToken(s.1)
    // the document's path, and the link that carries the token as its last segment
    ensures Models.Split(Models.InviteTokenPath(s.0.token)) == [Models.InviteTokensCollection, s.0.token]
    ensures Models.Split(s.0.inviteUrl) == Models.Split(OrDefault(appUrl, DefaultBaseUrl)) + ["invite", s.0.token]
  {
    var token := InviteToken(bytes);
    Models.InviteTokenPathSegments(token);
    var baseUrl := OrDefault(appUrl, DefaultBaseUrl);
    InviteUrlSegments(baseUrl, token);
    (Minted(token, InviteUrl(baseUrl, token)), tokens[token := InviteRecord(token, argv, now, serverTime)])
  }

  class InviteTokenStore {
    var tokens: map<string, InviteTokenDoc>

    ghost predicate Valid()
      reads this
    {
      KeyedByToken(tokens)
    }

    constructor ()
      ensures Valid() && tokens == map[]
    {
      tokens := map[];
    }

    /** `main()` of the script. */
    method Mint(bytes: seq<byte>, argv: seq<string>, appUrl: Option<string>, now: int, serverTime: int)
      returns (minted: Minted)
      requires Valid() && |bytes| == TokenBytes
      modifies this
      ensures Valid()
      ensures var s := CreateInviteStep(old(tokens), bytes, argv, appUrl, now, serverTime);
        minted == s.0 && tokens == s.1
    {
      var token := InviteToken(bytes);
      var familyId := ArgOr(argv, 2, DefaultFamilyId);
      var familyName := ArgOr(argv, 3, DefaultFamilyName);
      var labelText := ArgOr(argv, 4, DefaultLabel);
      var expiresAt := now + InviteLifetime;
      tokens := tokens[token := InviteTokenDoc(token, familyId, familyName, labelText,
                                               Active, ScriptAuthor, serverTime, expiresAt)];
      var baseUrl := OrDefault(appUrl, DefaultBaseUrl);
      minted := Minted(token, InviteUrl(baseUrl, token));
    }
  }
}
