# Family Connections: sign-up codes, admin grant, invite tokens and document paths

This project is a Dafny model of the server-side rules of the Family Connections web app.

- **Document paths.** The string paths under which families, invites, puzzles, members and invite tokens live in the document store. The stored names of the invite and puzzle status enums.
- **Sign-up codes.** An admin issues a one-time code for an e-mail address through `POST /api/admin/create-user`. The route checks a chain of guards and inserts a `pending` record into the `userCodes` collection. The new user redeems the code through `POST /api/auth/verify-code`. That route finds the pending record for the e-mail and the upper-cased code, refuses it once expired, creates the account or resets its password, and marks the record `used`.
- **Admin role.** `isUserAdmin` reads a profile document. `POST /api/admin/grant-self-admin` merges `role: "admin"`, `isAdmin: true` and `updatedAt` into the caller's own profile.
- **Invite tokens.** The `createInvite` script draws five random bytes and renders them as a ten-digit lower-case hex token. It stores an `active` record under that token in `inviteTokens` and builds the link `<base>/invite/<token>`.

Everything outside the program is an input:

- The identity service is an `AuthService` value. It holds the sessions (ID token to identity) and the accounts (e-mail to uid). Two flags say whether token checks answer and whether account calls answer. Account calls include `getUserByEmail`. When an account call does not answer, it throws an error other than "user not found".
- `Math.random()` results are a sequence of reals in [0, 1).
- `crypto.randomBytes` results are a sequence of bytes.
- Clocks are millisecond numbers.
- The id that `doc()` assigns is a string parameter, and so is the uid the service gives a new account.

Each route is a pure function from the collection before to the reply and the collection after (`CreateUserStep`, `VerifyCodeStep`, `GrantSelfAdminStep`, `CreateInviteStep`). The contracts of these functions state the route's promises. Next to each one is a class that holds the collection as a field and updates it in place. Its method follows the route's statements in order, and its `ensures` ties it to the pure function.

The `userCodes` collection is a sequence in insertion order, and `docs[0]` is the first match in that order. `Run` applies any sequence of requests to either route. The lemmas about `Run` prove three things:

- At most one code is pending per e-mail.
- Records are only appended, and only ever move from pending to used.
- Each code is redeemed at most once.

Two facts about the invite data shape the model:

- Two status enums are kept apart. Invites under `families/{f}/invites` use `active`, `revoked` and `used`, as `models.ts` declares. Documents of the top-level `inviteTokens` collection use `active`, `used` and `expired`, the three values the script and the join flow write (`src/app/(public)/join/actions.ts` writes `expired` and `used`).
- The invite script always sets a seven-day expiry.

## Model

| member | source | states |
|---|---|---|
| FirestoreModels.FamilyDocPath | src/lib/firestore/models.ts:48-49 | the path is `families/` followed by the family id |
| FirestoreModels.InviteDocPath | src/lib/firestore/models.ts:50-51 | the path starts with the family path and `/` and ends in `/invites/<id>` |
| FirestoreModels.PuzzleDocPath | src/lib/firestore/models.ts:52-53 | the path starts with the family path and `/` and ends in `/puzzles/<id>` |
| FirestoreModels.InviteTokenPath | src/lib/firestore/models.ts:54-55 | the path is `inviteTokens/` followed by the token |
| FirestoreModels.FamilyMemberPath | src/lib/firestore/models.ts:56-57 | the path starts with the family path and `/` and ends in `/members/<uid>` |
| FirestoreModels.FamilyDocPathSegments | src/lib/firestore/models.ts:48-49 | for an id without `/`, splitting at `/` gives `families` and the id |
| FirestoreModels.InviteDocPathSegments | src/lib/firestore/models.ts:50-51 | for ids without `/`, the path has the four segments `families`, family id, `invites`, invite id |
| FirestoreModels.PuzzleDocPathSegments | src/lib/firestore/models.ts:52-53 | for ids without `/`, the path has the four segments `families`, family id, `puzzles`, puzzle id |
| FirestoreModels.InviteTokenPathSegments | src/lib/firestore/models.ts:54-55 | for a token without `/`, the path has the two segments `inviteTokens` and the token |
| FirestoreModels.FamilyMemberPathSegments | src/lib/firestore/models.ts:56-57 | for ids without `/`, the path has exactly four segments: `families`, family id, `members`, uid |
| FirestoreModels.FamilyDocPathInjective | src/lib/firestore/models.ts:48-49 | different family ids give different paths |
| FirestoreModels.InviteDocPathInjective | src/lib/firestore/models.ts:50-51 | for ids without `/`, different (family, invite) pairs give different paths |
| FirestoreModels.PuzzleDocPathInjective | src/lib/firestore/models.ts:52-53 | for ids without `/`, different (family, puzzle) pairs give different paths |
| FirestoreModels.InviteTokenPathInjective | src/lib/firestore/models.ts:54-55 | different tokens give different paths |
| FirestoreModels.FamilyMemberPathInjective | src/lib/firestore/models.ts:56-57 | for ids without `/`, different (family, uid) pairs give different paths |
| FirestoreModels.FamilySubcollectionsDisjoint | src/lib/firestore/models.ts:50-57 | for ids without `/`, invite, puzzle and member paths never coincide, whatever the families |
| FirestoreModels.InviteTokenPathTopLevel | src/lib/firestore/models.ts:48-57 | a token path never starts with `families/` and equals no family, invite, puzzle or member path |
| FirestoreModels.ParseInviteStatus | src/lib/firestore/models.ts:23 | a stored invite status parses exactly when it is `active`, `revoked` or `used`, and names back to the same text |
| FirestoreModels.InviteStatusRoundTrip | src/lib/firestore/models.ts:23 | naming an invite status and parsing the name gives the status back |
| FirestoreModels.ParsePuzzleStatus | src/lib/firestore/models.ts:38 | a stored puzzle status parses exactly when it is `draft` or `published`, and names back to the same text |
| FirestoreModels.PuzzleStatusRoundTrip | src/lib/firestore/models.ts:38 | naming a puzzle status and parsing the name gives the status back |
| Hex.DigitValue | scripts/createInvite.js:46 | a character has a digit value exactly when it is `0`-`9` or `a`-`f`, and that value renders back to the character |
| Hex.ToHex | scripts/createInvite.js:46 | `toString("hex")` gives two lower-case hex digits per byte |
| Hex.FromHexToHex | scripts/createInvite.js:46 | decoding the hex rendering gives the original bytes back |
| Hex.ToHexFromHex | scripts/createInvite.js:46 | a text that decodes to some bytes is the hex rendering of those bytes |
| Hex.ToHexInjective | src/app/api/auth/verify-code/route.ts:48 | different byte sequences render to different hex texts |
| FirebaseAuth.VerifyIdToken | src/app/api/admin/create-user/route.ts:31-38 | a token yields an identity exactly when token checks answer and the token belongs to a session |
| FirebaseAuth.GetUserByEmail | src/app/api/admin/create-user/route.ts:86-97 | the lookup finds an account exactly when account calls answer and the e-mail is registered, and the uid found is the one registered for that e-mail; it fails with another error than "not found" exactly when account calls do not answer |
| FirebaseAuth.TextBefore | src/app/api/admin/grant-self-admin/route.ts:15 | `split(sep)[0]`: the longest prefix without an occurrence of the separator, ended by the first occurrence or by the end of the text |
| FirebaseAuth.ExtractBearer | src/app/api/admin/grant-self-admin/route.ts:8-15 | `split("Bearer ")[1]`: a token exists exactly when the header is present and starts with `Bearer `; it is the text after the prefix up to the next `Bearer ` or, when there is none, up to the end of the header |
| FirebaseAuth.ExtractBearerRoundTrip | src/app/api/admin/grant-self-admin/route.ts:15 | for a header `Bearer <t>` where t contains no `Bearer `, the extracted token is t |
| FirebaseAuth.Authenticate | src/app/api/admin/create-user/route.ts:19-38 | every failure is 401; no usable header gives "No token provided", a refused token "Invalid token"; success exactly when a token is extracted and the service verifies it, returning that session's identity |
| CheckAdmin.ReadProfile | src/lib/auth/check-admin.ts:6-10 | the read finds the profile exactly when the store is readable and the uid has one; a failed read is the only other error |
| CheckAdmin.IsUserAdmin | src/lib/auth/check-admin.ts:3-18 | admin if and only if a profile was found and it holds `isAdmin` equal to true or `role` equal to `admin`; a missing profile or a failed read is never admin |
| CheckAdmin.TextTrueIsNotAdmin | src/lib/auth/check-admin.ts:13 | the text "true" under `isAdmin`, without the admin role, is not admin (strict equality) |
| CheckAdmin.NoMarkerIsNotAdmin | src/lib/auth/check-admin.ts:13 | a profile without `isAdmin` equal to true and without `role` equal to `admin` is not admin, whatever else it holds |
| CheckAdmin.EitherMarkerSuffices | src/lib/auth/check-admin.ts:13 | `isAdmin === true` alone, or `role === "admin"` alone, makes an admin |
| UserCodes.FirstMatch | src/app/api/auth/verify-code/route.ts:19-34 | the result is the first record matching the e-mail, the code and `pending`; it is None exactly when no record matches |
| UserCodes.EvolvesTransitive | src/app/api/auth/verify-code/route.ts:77-81 | appending records and moving records from pending to used, done twice, is again such a change |
| CreateUser.AlphabetIndex | src/app/api/admin/create-user/route.ts:10 | `floor(r * 32)` lies in [0, 32) for every draw r in [0, 1) |
| CreateUser.CodeFromDraws | src/app/api/admin/create-user/route.ts:9-10 | one character per draw, each the alphabet symbol at the draw's index |
| CreateUser.AlphabetSymbols | src/app/api/admin/create-user/route.ts:7 | the alphabet has 32 symbols, all upper-case letters other than I and O, or digits 2-9 |
| CreateUser.GenerateUserCode | src/app/api/admin/create-user/route.ts:6-13 | the code is the one the draws determine: exactly 8 symbols of the alphabet, never 0, O, 1 or I |
| CreateUser.EmailCheckIsRegex | src/app/api/admin/create-user/route.ts:60-61 | the route's e-mail test holds exactly when `^[^\s@]+@[^\s@]+\.[^\s@]+$` matches: three non-empty runs without whitespace or `@`, separated by `@` and a later `.` |
| CreateUser.OrNull | src/app/api/admin/create-user/route.ts:103 | `displayName` or else null: a present non-empty name is kept unchanged; an absent or empty name becomes null |
| CreateUser.IssueCode | src/app/api/admin/create-user/route.ts:51-117 | for an admin's parsed body: 400 "Email is required", "Invalid email format", a pending code or an existing account, 500 when the lookup fails with another error than "not found", each with no write; otherwise one pending record with the drawn code is appended and one pending code per e-mail is kept |
| CreateUser.CreateUserStep | src/app/api/admin/create-user/route.ts:15-125 | 401 "Unauthorized - No token provided" without a Bearer header and 401 "Unauthorized - Invalid token" for a refused token; 403 for a non-admin; for an admin, 400 "Email is required" for a missing e-mail, 400 "Invalid email format" for a malformed one, 400 for a pending code, 400 "A user with this email already exists" for a registered e-mail; 500 with no write when the account lookup fails with another error than "not found" and when the body does not parse; a failure writes nothing; success appends one pending record with the caller as author, the drawn code and expiry `createdAt` + 604800000; a new e-mail from an admin succeeds when account calls answer; one pending code per e-mail is kept |
| UserCodeTable.UserCodeCollection.CreateUserCode | src/app/api/admin/create-user/route.ts:15-117 | the guard chain run in place returns the reply of `CreateUserStep` and leaves its collection, keeping one pending code per e-mail |
| VerifyCode.ToUpper | src/app/api/auth/verify-code/route.ts:23 | `toUpperCase` keeps the length and upper-cases each ASCII letter |
| VerifyCode.UpperOfLowerCode | src/app/api/auth/verify-code/route.ts:23 | an issued code survives being typed in lower case: upper-casing its lower-case form gives it back |
| VerifyCode.LocalPart | src/app/api/auth/verify-code/route.ts:67 | `email.split("@")[0]`: the prefix of the e-mail before its first `@`, or the whole e-mail when it has none |
| VerifyCode.NewAccountName | src/app/api/auth/verify-code/route.ts:67 | a new account is named by the code's display name, or else by the e-mail's local part |
| VerifyCode.VerifyCodeStep | src/app/api/auth/verify-code/route.ts:5-95 | a body that does not parse gives 500; missing e-mail or code gives 400; no pending match gives 400; `expiresAt < now` gives 400 and the record stays pending; an unexpired match when account calls do not answer gives 500; success changes only the first match, to used with `usedAt` and `userId`; a registered e-mail has the password of its own uid reset, an unregistered one gets a new account named after the code's display name or the e-mail; a match that expires exactly now is still accepted; a failure writes nothing; the temporary password is 32 lower-case hex digits that decode to the random bytes drawn; one pending code per e-mail is kept |
| UserCodeTable.UserCodeCollection.VerifyUserCode | src/app/api/auth/verify-code/route.ts:5-87 | the lookup, expiry test and update run in place return the reply of `VerifyCodeStep` and leave its collection |
| UserCodeTable.ApplyEvolves | src/app/api/auth/verify-code/route.ts:77-81 | one request of either route appends at most one record, changes at most one existing record and only by moving it from pending to used, and keeps one pending code per e-mail |
| UserCodeTable.RunKeepsInvariant | src/app/api/admin/create-user/route.ts:72-83 | after any sequence of requests there is still at most one pending code per e-mail, and the collection has only grown and moved records to used |
| UserCodeTable.RunEvolves | src/app/api/auth/verify-code/route.ts:77-81 | from any collection, a sequence of requests only appends records and moves records from pending to used |
| UserCodeTable.UsedRecordFrozen | src/app/api/auth/verify-code/route.ts:24 | a used record is never changed by any later request, whatever the rest of the collection holds |
| UserCodeTable.RedeemedAtMostOnce | src/app/api/auth/verify-code/route.ts:19-34 | over any sequence of requests each record moves from pending to used at most once, and a used record never does |
| UserCodeTable.LowercaseCodeRedeems | src/app/api/auth/verify-code/route.ts:23 | a pending, unexpired code typed in lower case is accepted when account calls answer, and only its record changes |
| GrantSelfAdmin.AdminFields | src/app/api/admin/grant-self-admin/route.ts:38-46 | the route writes exactly `role`, `isAdmin` and `updatedAt`, and they carry both admin markers |
| GrantSelfAdmin.MergeSet | src/app/api/admin/grant-self-admin/route.ts:38-46 | a merge write sets the written fields and keeps every other stored field |
| GrantSelfAdmin.GrantedProfile | src/app/api/admin/grant-self-admin/route.ts:32-46 | the merged profile is admin, with `role` = `admin`, `isAdmin` = true and `updatedAt` = now; it has the old fields plus those three and keeps every other old field |
| GrantSelfAdmin.GrantSelfAdminStep | src/app/api/admin/grant-self-admin/route.ts:1-61 | an absent or invalid token gives 401 with the guard's message and no write; a profile that cannot be read gives 500 "Failed to grant admin role" and no write; a failure writes nothing; success returns the caller's uid and e-mail and sets the caller's entry, created if missing, to the merged profile of `GrantedProfile`; it changes no other entry, keeps the caller's other fields and makes `isUserAdmin` true; an authenticated caller with a readable store always succeeds |
| GrantSelfAdmin.ProfileStore.GrantSelfAdmin | src/app/api/admin/grant-self-admin/route.ts:4-53 | the route run in place returns the reply of `GrantSelfAdminStep` and leaves its profiles |
| GrantSelfAdmin.GrantThenCreateUser | src/app/api/admin/grant-self-admin/route.ts:38-46 | after a successful grant, the same caller gets neither 401 nor 403 from the create-user route |
| CreateInvite.OrDefault | scripts/createInvite.js:63 | `value` or else the fallback: a present non-empty value is kept, otherwise the fallback |
| CreateInvite.ArgOr | scripts/createInvite.js:47-49 | `process.argv[i]` or else the fallback: the argument when given and non-empty, otherwise the fallback |
| CreateInvite.ParseTokenStatus | scripts/createInvite.js:57 | a stored token status parses exactly when it is `active`, `used` or `expired`, and names back to the same text |
| CreateInvite.TokenStatusRoundTrip | scripts/createInvite.js:57 | naming a token status and parsing the name gives the status back |
| CreateInvite.InviteToken | scripts/createInvite.js:46 | the token is 10 lower-case hex digits, decodes back to the 5 bytes drawn, and contains no `/` |
| CreateInvite.InviteRecord | scripts/createInvite.js:50-61 | the record carries its token, status `active` and `expiresAt` = now + 604800000 |
| CreateInvite.InviteUrlSegments | scripts/createInvite.js:64 | the link's segments are the base URL's followed by `invite` and the token |
| CreateInvite.CreateInviteStep | scripts/createInvite.js:45-64 | the token decodes to the bytes drawn; exactly the token's document is written, under the token, with the arguments or their defaults, `admin-script`, status `active`, the store's timestamp and a seven-day expiry; every document stays keyed by its own token; the link ends in `invite` and the token |
| CreateInvite.InviteTokenStore.Mint | scripts/createInvite.js:45-64 | the script run in place returns the token and link of `CreateInviteStep`, leaves its collection and keeps every document keyed by its own token |

## Left out

- Loading credentials and environment variables, and starting the admin SDK, are outside the model. `NEXT_PUBLIC_APP_URL` is an optional input.
- The identity service (`verifyIdToken`, `getUserByEmail`, `createUser`, `updateUser`) is a value, not a remote call. A failing `createUser` or `updateUser` is not modelled. The `AccountAction` in the reply stands for the call the route makes.
- Store failures other than an unreadable `profiles` collection are not modelled. Failing query or write calls to `userCodes`, `profiles` and `inviteTokens` would each give a 500 or a rejected promise.
- The create-user route reads the clock separately for `createdAt` and for the stored `expiresAt` (route.ts:106 and 108). The model uses one `now` for both, so the stored expiry is exactly `createdAt` + seven days.
- The `expiresAt` text in the create-user response (route.ts:116) is not modelled. The success reply `CodeIssued` carries the id, the e-mail and the code only.
- The verify-code route reads the clock for the expiry test and again for `usedAt`. Both readings are the one `now`.
- VerifyCode.ToUpper: upper-cases ASCII letters only and leaves every other character unchanged. The full Unicode mapping of `toUpperCase` also turns some non-ASCII characters into ASCII letters, such as U+017F (long s) into `S`, so a typed code holding one could match where the model says it does not. Such a code is not in the issuing alphabet, so no issued code is typed that way by lower-casing it.
- The guard `userCodeData.expiresAt &&` is not modelled separately. Every record the create-user route writes has an `expiresAt`, so in the model it always holds.
- A JSON body field that is not a string (a number, say) is not modelled. Body fields are absent or text.
- A body that does not parse gives the route's 500 without further detail.
- Ids assigned by `doc()` are parameters. Their uniqueness is not modelled.
- A Firestore query with only equality filters returns its documents ordered by document id, and `doc()` ids are random. The model keeps `userCodes` in insertion order instead. The order matters only when two pending records match the same e-mail and code, and the one-pending-code-per-e-mail invariant rules that out.
- Both code routes query and then write without a transaction. The model runs requests one after another and claims nothing about concurrent requests.
- The WhatsApp link of the invite script (`encodeURIComponent`) and all console output are left out.
- The document interfaces of `models.ts` (`Family`, `FamilyMember`, `Invite`, `Puzzle`, `PuzzleGroup`) are left out. They hold no logic of their own, and only their status enums are modelled.
- `Value` models the field values the routes read and write (booleans, text, numbers, timestamps, null). Nested objects and arrays are left out, and so is the deep merge that `merge: true` applies to nested maps.
- The admin-grant route writes `updatedAt: new Date()`. This is the `now` input, stored as a timestamp.
- The store's `serverTimestamp()` is the `serverTime` input of the invite script.
