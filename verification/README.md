# Notes SaaS core in Dafny

A model of the core of a multi-tenant notes service. The service has two parts:

- an Express/Mongoose server with JWT sessions;
- a React client.

The model covers:

- **Store.** The four collections (tenants, users, notes, refresh-token records) are immutable finite maps. A fresh-id counter stands in for ObjectIds.
- **Handlers and middleware.** Every middleware and handler is a pure function from a request, the ambient inputs (clock, `NODE_ENV`, a flag for a store that throws, the bcrypt hash) and a store to a reply and a new store:
  - `authenticate` and `requireRole`;
  - `enforceTenantIsolation`;
  - the five note handlers;
  - the plan toggle;
  - login, logout, refresh and `/me`.
- **Routes.** The three routers compose the handlers with their guards in the order the routes declare them (`Routes.Dispatch`). As written, the notes router never hands tenant isolation a slug, so every authenticated note request is refused with 400 (`Routes.NoteRoutesAsWrittenRefuse`, see Findings). `Routes.Dispatch` serves note requests with the slug the URL names, which is what tenant isolation is written to expect. The note properties below are about that routing.
- **Runs of requests.** Runs are served in sequence (`Sessions.Run`). Some runs have background deletions of expired refresh records between their calls (`Expiry.RunSwept`).
- **Smaller decisions:**
  - the schemas' setters and validators;
  - token issue and cookie flags;
  - the error handler;
  - the health aggregation;
  - the seed script.
- **Client decisions:**
  - the `useAuth` flags and redirect;
  - the refresh-failure handler;
  - the infinite notes query: when it runs, its next-page rule and the flattening of pages;
  - the invitation checks with the e-mail pattern;
  - the header's initials.

JWT signing is modelled as an injective text encoding of `(secret, payload, iat, exp)`. Under that encoding, verifying a token means reading the text back, then checking the secret and the expiry. bcrypt is an arbitrary function `hash` carried in the ambient inputs.

The properties proved are:

- **Tenant isolation.** With the slug reaching isolation, a note request only reads or changes notes of the caller's own tenant (`Pipeline.NoteRoutesIsolateTenants`).
- **Ownership.** Only a note's author can update or delete it (`Pipeline.OnlyAuthorsModify`).
- **Quota.** No create takes a free tenant past three notes (`Pipeline.QuotaRespected`). A downgrade keeps every existing note, so a downgraded tenant may hold more than three, and its creates are refused until it is back under the quota (`TenantController.DowngradeKeepsNotes`).
- **Plan consistency.** A tenant's plan and quota stay consistent. A store invariant holds over every request and every run (`Pipeline.DispatchPreservesWf`, `Sessions.RunPreservesWf`).
- **One-shot refresh.** A rotated refresh token never refreshes again (`Sessions.OneShotRefresh`).
- **Expiry.** Background expiry of refresh records is invisible to any run with a clock that never goes back (`Expiry.SweepsInvisible`). This rests on a record expiring with its token, which holds for a server clock without daylight-saving changes (see Left out). A record deleted while its token still verifies would make a refresh fail (`Expiry.EarlySweepRefused`).
- **Client paging.** The corrected client paging collects a tenant's whole listing exactly once (`ClientNotes.WalkCollectsListing`).

Where the code and its doc comments disagree, the model follows the code:

- `getNotes` defaults the page size to 6, although its comment says 10.
- Tenant isolation's comment says it takes the slug from the URL parameters, but the notes router declares no `:slug` and no `mergeParams`. The model records the code as written in `Routes.AsWrittenNoteEndpoint`. As the one exception to following the code, `Routes.Dispatch` serves the evident intent (Findings).
- The notes service types the listing as `Note[]`, but the reply's `data` is an object holding `notes` and `pagination`. The client reads it as that object, and so does the model.

## Model

| member | source | states |
|---|---|---|
| `Text.TrimIsCore` | server/src/models/Tenant.ts:18-22 | trimming keeps one contiguous run of the text that begins and ends with a non-space, and everything cut off on either side is JavaScript white space |
| `Text.TrimIdempotent` | server/src/models/Note.ts:13-18 | a trimmed value is stored unchanged when trimmed again |
| `Text.TrimEmptyIffAllSpace` | server/src/models/Note.ts:13-18 | a text trims to nothing exactly when every character is white space |
| `Text.Utf16LengthBounds` | server/src/models/Note.ts:17-22 | a text's JavaScript length is at least its number of characters and at most twice it |
| `Text.Utf16LengthNarrow` | server/src/models/Note.ts:17-22 | the JavaScript length equals the number of characters iff no character lies beyond U+FFFF |
| `Text.Utf16LengthWide` | server/src/models/Note.ts:17-22 | the JavaScript length is twice the number of characters iff every character lies beyond U+FFFF |
| `Text.Lower` | server/src/controllers/auth.controller.ts:28 | lower-casing keeps the length and maps each character to its ASCII lower case in place |
| `Text.JoinSplit` | client/components/layout/header.tsx:37-38 | joining the pieces of a one-character split with that character gives back the original text |
| `Text.SplitJoin` | client/components/layout/header.tsx:38 | splitting a join of separator-free pieces gives back exactly those pieces |
| `Text.BeforeIsFirstPiece` | client/components/layout/header.tsx:37 | the first piece of `split('@')` is the text before the first `@`, or the whole text when there is none |
| `Text.IndexFrom` | server/src/middleware/auth.ts:45 | the result is the first index at or after `k` where the pattern occurs; none means it occurs nowhere from `k` on |
| `Text.ReplaceFirstPrefix` | server/src/middleware/auth.ts:45 | replacing the first `"Bearer "` in `"Bearer " + t` by nothing yields exactly `t` |
| `Text.ReplaceFirstAbsent` | server/src/middleware/auth.ts:45 | a header without the prefix is used as it is |
| `Text.ParseDecDec` | server/src/controllers/auth.controller.ts:46-50 | `String(id)` of an id reads back as that id |
| `Text.ParseDecCanonical` | server/src/controllers/auth.controller.ts:46-50 | text that reads back as an id is the canonical numeral of that id, so ids and their texts correspond one to one |
| `Text.DigitPrefix` | server/src/controllers/notes.controller.ts:115-116 | the result is the longest prefix made of digits of the radix: all its characters are digits and the next one is not |
| `Text.ParseIntDec` | server/src/controllers/notes.controller.ts:115-116 | `parseInt` of the decimal numeral of `n` is `n` |
| `Text.ParseIntNoDigits` | server/src/controllers/notes.controller.ts:115-116 | `parseInt` of text without any digit is `NaN` |
| `Models.LowerTrimCommute` | server/src/models/User.ts:20-26 | lower-casing and trimming commute, so the two setters give the same value in either order |
| `Models.NormalizeIsNormalized` | server/src/models/Tenant.ts:23-29 | a slug or email stored through the setters is left unchanged by them |
| `Models.NewTenant` | server/src/models/Tenant.ts:17-41 | creating a tenant succeeds iff the trimmed name and the trimmed, lower-cased slug are non-empty; the stored name is the trimmed name and the slug the trimmed, lower-cased slug; a given plan and quota are kept, and otherwise default to free and 3 |
| `Models.NewUser` | server/src/models/User.ts:19-65 | creating a user succeeds iff the normalised email is non-empty and the password is at least 6 UTF-16 code units long; the stored email is the trimmed, lower-cased address; the role defaults to member; the stored password accepts exactly the candidates hashing like the given password |
| `Models.ResaveDoesNotRehash` | server/src/models/User.ts:55-65 | saving again without touching the password keeps the single hash, so the original password still matches |
| `Models.UserJson` | server/src/models/User.ts:43-50 | the JSON form holds every stored field except `password`, with the same values |
| `Models.NoteText` | server/src/models/Note.ts:12-23 | a note's text is accepted iff the trimmed title is 1 to 200 UTF-16 code units long and the content 1 to 10000; the title is stored trimmed |
| `Models.BlankTitleRejected` | server/src/models/Note.ts:13-18 | a title of white space only passes the handlers' presence check but is refused by the schema |
| `Models.WideTitleRejected` | server/src/models/Note.ts:13-18 | a title of more than 100 characters beyond U+FFFF is refused, being over 200 code units |
| `Models.WidePasswordAccepted` | server/src/models/User.ts:27-31 | a password of three U+1F600 characters is long enough, being 6 code units |
| `Stores.FindUserFrom` | server/src/controllers/auth.controller.ts:28 | a user found has exactly the email asked for; none found means no stored user has it |
| `Stores.FindTenantFrom` | server/src/middleware/tenantIsolation.ts:42 | a tenant found has exactly the slug asked for; none found means no stored tenant has it |
| `Stores.FindUserByEmailExact` | server/src/models/User.ts:20-24 | with unique emails the lookup returns the one user holding the email |
| `Stores.FindTenantBySlugExact` | server/src/models/Tenant.ts:23-26 | with unique slugs the lookup returns the one tenant holding the slug |
| `Stores.NoteCountIsCardinality` | server/src/controllers/notes.controller.ts:45 | `countDocuments({ tenantId })` is the number of stored notes carrying the tenant's id |
| `Stores.TenantNotesMembers` | server/src/controllers/notes.controller.ts:119 | `find({ tenantId })` yields exactly the stored notes carrying the tenant's id |
| `Jwt.DecodeSign` | server/src/utils/jwt.ts:11-19 | a signed token reads back as itself |
| `Jwt.SignDecode` | server/src/utils/jwt.ts:11-19 | a text that reads back as a token is that token's signature |
| `Jwt.SignInjective` | server/src/utils/jwt.ts:11-19 | different tokens have different texts |
| `Jwt.VerifyIff` | server/src/middleware/auth.ts:56 | verification accepts a text exactly when it is the signature, under the same secret, of claims whose expiry is still ahead |
| `Jwt.WrongSecretRejected` | server/src/utils/jwt.ts:12-18 | a token signed with one secret never verifies under the other |
| `Jwt.GenerateTokens` | server/src/utils/jwt.ts:11-32 | exactly one record is added, keyed by the returned refresh token, holding the payload's user and tenant and the issue time plus 604800 seconds; the two tokens verify under their own secrets with 15-minute and 7-day lifetimes; an already stored token text is a duplicate-key failure |
| `Jwt.IssuedAtDifferentTimesDiffer` | server/src/utils/jwt.ts:16-18 | refresh tokens issued in different seconds differ, whatever their payloads |
| `Jwt.SessionCookieOptions` | server/src/utils/jwt.ts:34-52 | cookies are HTTP-only with path `/`; secure iff production; same-site strict in production and lax otherwise |
| `Jwt.SetTokenCookies` | server/src/utils/jwt.ts:34-52 | sets `accessToken` (15 minutes) and `refreshToken` (7 days) to the issued pair, both with the session flags |
| `Jwt.ClearTokenCookies` | server/src/utils/jwt.ts:54-57 | clears exactly the two session cookies and sets none |
| `Jwt.ClearMatchesSet` | server/src/utils/jwt.ts:34-57 | the cookies cleared on logout are exactly the cookies set on login or refresh, so no session cookie is left behind |
| `Paging.QueryIntOr` | server/src/controllers/notes.controller.ts:115-116 | the parsed number, or the default when the parameter is absent, has no leading integer, or parses to 0; never 0 when the default is not |
| `Paging.QueryIntOrDecimal` | server/src/controllers/notes.controller.ts:115-116 | a positive decimal parameter is taken as given and `"0"` falls back to the default |
| `Paging.JsCeilDiv` | server/src/controllers/notes.controller.ts:133 | `Math.ceil(a / b)` is the least integer `r` with `a <= r * b` (for negative `b`, the mirrored bound) |
| `Paging.SortNewestFirst` | server/src/controllers/notes.controller.ts:121 | the listing is a permutation of the tenant's notes, newest creation time first |
| `Paging.NewestFirstUnique` | server/src/controllers/notes.controller.ts:121 | notes with distinct ids have only one newest-first order, ties in creation time broken by id |
| `Paging.CreatedAtOrderIsListing` | server/src/controllers/notes.controller.ts:121 | when creation times differ, any order of the notes by creation time alone, which is all `sort({ createdAt: -1 })` promises, is the listing |
| `Paging.Window` | server/src/controllers/notes.controller.ts:122-123 | `skip` then `limit`: at most `limit` notes, the ones at positions `skip` onward, in order |
| `Paging.WindowsTile` | server/src/controllers/notes.controller.ts:117-123 | the windows of two consecutive pages of one size are together the window of twice the size |
| `AuthMiddleware.CookieTakesPrecedence` | server/src/middleware/auth.ts:45 | a non-empty access-token cookie is used whatever the `Authorization` header says |
| `AuthMiddleware.BearerHeaderToken` | server/src/middleware/auth.ts:45 | without a cookie, a `Bearer` header yields exactly the text after the prefix |
| `AuthMiddleware.Authenticate` | server/src/middleware/auth.ts:42-99 | a halt is a failure with a code, status 401 or 500, and no cookies; passing on attaches a stored user and a stored tenant and changes nothing else in the request |
| `AuthMiddleware.AuthenticatedCaller` | server/src/middleware/auth.ts:59-81 | a request passed on carries the stored user the token names, with its tenant populated |
| `AuthMiddleware.AuthenticateOutcomes` | server/src/middleware/auth.ts:45-98 | the whole decision: no token gives `ACCESS_TOKEN_MISSING`; no valid unexpired access token gives `ACCESS_TOKEN_INVALID`; a throwing store gives 500 `AUTH_ERROR`; then `USER_NOT_FOUND`, then `TENANT_NOT_FOUND`; otherwise user and tenant are attached |
| `AuthMiddleware.UserCheckedBeforeTenant` | server/src/middleware/auth.ts:59-76 | with both the user and the tenant missing, the reply is `USER_NOT_FOUND` |
| `AuthMiddleware.TenantComesFromToken` | server/src/middleware/auth.ts:69-80 | the attached tenant is the one the token names, not the one in the user's record |
| `AuthMiddleware.RefreshTokenRejected` | server/src/middleware/auth.ts:84-90 | a refresh token is never accepted as an access token |
| `AuthMiddleware.RequireRole` | server/src/middleware/auth.ts:119-141 | passes the request on unchanged iff a user is present with a listed role; no user gives 401 `AUTHENTICATION_REQUIRED`; a wrong role gives 403 `INSUFFICIENT_PERMISSIONS` |
| `TenantIsolation.EnforceTenantIsolation` | server/src/middleware/tenantIsolation.ts:21-87 | checks in the order 401, 400, 404, 403; passes on iff the slug names a stored tenant whose id is the caller's tenant id; on success only `req.tenant` changes, to that tenant; a failure has no body |
| `TenantIsolation.IsolationDecision` | server/src/middleware/tenantIsolation.ts:42-76 | with unique slugs, the caller of the slug's tenant passes with that tenant attached, and any other caller is refused with 403 |
| `TenantIsolation.UnknownSlugNotFound` | server/src/middleware/tenantIsolation.ts:42-50 | a slug no tenant holds is answered 404, whoever asks |
| `TenantController.Toggled` | server/src/controllers/tenant.controller.ts:35-37 | the new plan is the other one |
| `TenantController.QuotaFor` | server/src/controllers/tenant.controller.ts:39 | pro stores -1 and free stores 3 |
| `TenantController.Switch` | server/src/controllers/tenant.controller.ts:35-49 | only plan and quota change; id, name and slug are kept; the new plan and quota agree |
| `TenantController.SwitchTwice` | server/src/controllers/tenant.controller.ts:35-39 | switching twice restores a tenant whose plan and quota agree |
| `TenantController.ToggleTenantPlan` | server/src/controllers/tenant.controller.ts:21-75 | a foreign slug gives 403 and no change; success iff the slug is the tenant's own and the tenant is stored; the stored tenant then has the other plan and its quota, and the message says upgraded iff the new plan is pro |
| `TenantController.ToggleTwiceRestores` | server/src/controllers/tenant.controller.ts:35-49 | two toggles in a row restore the store |
| `TenantController.DowngradeKeepsNotes` | server/src/controllers/tenant.controller.ts:35-49 | a successful downgrade leaves the tenant free with quota 3 and every tenant's note count unchanged, so a free tenant may hold more than 3 notes |
| `AuthController.Login` | server/src/controllers/auth.controller.ts:16-80 | a missing email or password gives 400; an unknown email and a wrong password give the same 401; a success looks the user up by the lower-cased email, checks the password, and starts a session; only refresh records change |
| `AuthController.StartSession` | server/src/controllers/auth.controller.ts:45-72 | adds exactly the record of the refresh token issued for `{ userId, tenantId, role }`, sets both cookies, and returns the user's and tenant's public fields |
| `AuthController.LoginIgnoresEmailCase` | server/src/controllers/auth.controller.ts:28 | logging in with an email and with its lower-cased form gives the same result |
| `AuthController.RefreshTokenOf` | server/src/controllers/auth.controller.ts:121-124 | the cookie token wins over the body token; none at all is the empty text |
| `AuthController.Refresh` | server/src/controllers/auth.controller.ts:119-187 | no token gives 401; a token that does not verify (malformed, wrong secret or expired) gives 401 `Invalid refresh token`; a throwing store gives 500; a valid token missing from the store gives 401; a stored valid token whose user or tenant is gone gives 404; each of these changes nothing; a failure leaves the store unchanged, except that a duplicate-key failure leaves the presented record deleted; a success requires a stored, valid, unexpired token whose user and tenant exist, and swaps its record for the newly issued one |
| `AuthController.RefreshRotates` | server/src/controllers/auth.controller.ts:156-167 | after a success in a later second than the token's issue, the presented token is no longer stored |
| `AuthController.Logout` | server/src/controllers/auth.controller.ts:89-110 | deletes the cookie's record if there is one, clears both cookies and replies 200, unless the store throws |
| `AuthController.LogoutIdempotent` | server/src/controllers/auth.controller.ts:91-101 | logging out twice is logging out once |
| `AuthController.GetCurrentUser` | server/src/controllers/auth.controller.ts:196-233 | 401 without user or tenant; otherwise 200 with their public fields |
| `NotesController.CreateNote` | server/src/controllers/notes.controller.ts:30-76 | missing text gives 400; a free tenant at its quota gives 403 `NOTE_LIMIT_REACHED`; a success adds exactly one note under a fresh id, by the caller in the caller's tenant, with trimmed title and valid text; any failure leaves the store unchanged |
| `NotesController.CreateDecision` | server/src/controllers/notes.controller.ts:30-76 | given the tenant's count, a note is stored iff the text is present, caller and tenant are known, the store is up, a free tenant is under its quota and the schema accepts the text; the stored note carries the next id, the trimmed title and the caller's ids |
| `NotesController.ListingFacts` | server/src/controllers/notes.controller.ts:119-125 | the listing is newest first, holds only stored notes of the tenant, and is as long as the tenant's note count |
| `NotesController.WindowNewestFirst` | server/src/controllers/notes.controller.ts:121-123 | a page of the listing is itself newest first |
| `NotesController.GetNotes` | server/src/controllers/notes.controller.ts:105-147 | read-only; no user gives 401; with a user, a tenant, a store that answers and a non-negative skip, the reply is the requested page |
| `NotesController.PageReply` | server/src/controllers/notes.controller.ts:114-138 | the page is the listing from `(page-1)*limit` on, at most `limit` notes, newest first, only the tenant's; `totalNotes` is the tenant's count, `totalPages` is `ceil(total/limit)`, and `hasMore` holds iff `skip + returned < total` |
| `NotesController.PageBody` | server/src/controllers/notes.controller.ts:117-137 | a page body holds the window of the listing and the pagination computed from the listing's length |
| `NotesController.GetNoteById` | server/src/controllers/notes.controller.ts:171-199 | read-only; returns the note iff the id and the caller's tenant both match, otherwise 404 |
| `NotesController.UpdateNote` | server/src/controllers/notes.controller.ts:229-272 | missing text gives 400; only the note matching id, tenant and author is rewritten, with the new trimmed text and update time; an absent note and another author's note give the same 404 and no change |
| `NotesController.DeleteNote` | server/src/controllers/notes.controller.ts:297-327 | removes exactly the note matching id, tenant and author; otherwise the same 404 and no change |
| `NotesController.DeleteTwiceNotFound` | server/src/controllers/notes.controller.ts:303-314 | deleting the same note again finds nothing |
| `Health.Classify` | server/src/controllers/health.controller.ts:46-104 | a service is down iff its check threw, and up iff it answered under its limit |
| `Health.Overall` | server/src/controllers/health.controller.ts:106-116 | healthy iff all three are up, unhealthy iff any is down, degraded otherwise |
| `Health.HttpStatus` | server/src/controllers/health.controller.ts:151-152 | 503 iff unhealthy, 200 otherwise |
| `Health.DegradedHasCause` | server/src/controllers/health.controller.ts:113-114 | a degraded aggregate always has a degraded service |
| `Health.OverallIsWorst` | server/src/controllers/health.controller.ts:106-116 | the aggregate is the worst of the three services |
| `Health.SlowerNeverBetter` | server/src/controllers/health.controller.ts:54 | a slower answer never classifies better |
| `Health.WorseServiceNeverImproves` | server/src/controllers/health.controller.ts:106-152 | making services worse never improves the aggregate or lifts a 503 |
| `Health.LimitsDiffer` | server/src/controllers/health.controller.ts:46-104 | 75 ms is up for the database and the external API but degraded for the cache, and the endpoint still answers 200 |
| `ErrorHandler.JoinEmptyIff` | server/src/middleware/errorHandler.ts:49 | the joined field messages are empty iff there are none or just one empty one |
| `ErrorHandler.HandleError` | server/src/middleware/errorHandler.ts:24-61 | never a success; a validation error gives 400; a duplicate key gives 400 with its message; a cast error gives 404 with its message; otherwise the error's status (or 500) and its message (or `Server Error`); the stack appears iff `NODE_ENV` is development |
| `ErrorHandler.HandleErrorByPrecedence` | server/src/middleware/errorHandler.ts:33-52 | running the three checks in order equals choosing by precedence validation, duplicate key, cast, other |
| `ErrorHandler.EmptyValidationFallsBack` | server/src/middleware/errorHandler.ts:47-57 | a validation error without field messages is answered 400 `Server Error` |
| `ErrorHandler.DuplicateOverridesCast` | server/src/middleware/errorHandler.ts:33-44 | a cast error that also has code 11000 is answered as a duplicate key |
| `Routes.NoteEndpoint` | server/src/routes/notes.route.ts:16-23 | a halting guard answers for the route and leaves the store alone; the two reads never change the store |
| `Routes.UpgradeEndpoint` | server/src/routes/tenant.route.ts:8 | a halting guard answers and leaves the store alone |
| `Routes.SessionEndpoint` | server/src/routes/auth.route.ts:7-9 | login, logout and refresh change only refresh records |
| `Routes.MeEndpoint` | server/src/routes/auth.route.ts:10 | `/me` never changes the store |
| `Routes.Dispatch` | server/src/routes/notes.route.ts:16-23 | every route runs its guards first and stops at the first halt with the store unchanged; reads change nothing; session routes change only refresh records |
| `Routes.NoteRoutesAuthenticateFirst` | server/src/routes/notes.route.ts:16-17 | a note request without a token gets 401 `ACCESS_TOKEN_MISSING` on every note route |
| `Routes.IsolationBeforeRole` | server/src/routes/notes.route.ts:16-23 | on a note route, an isolation refusal is the answer before any role check |
| `Routes.NoteRouteRoles` | server/src/routes/notes.route.ts:16-23 | a note handler is reached iff authentication and isolation pass and the caller is a member, or the route is the listing, which admits admins too; a request without a slug never reaches one |
| `Routes.AsWrittenNoteEndpoint` | server/src/routes/notes.route.ts:13-23 | the note routes as written, whose middleware sees no slug parameter, never succeed and never change the store |
| `Routes.NoteRoutesAsWrittenRefuse` | server/src/routes/notes.route.ts:13-17 | as written, a note request that passes authentication gets 400 `Tenant slug is required`, and any other gets authentication's refusal, with the store unchanged |
| `Routes.OwnCallerReachesHandler` | server/src/middleware/tenantIsolation.ts:42-86 | with the slug reaching isolation, an authenticated caller of the slug's own tenant whose role the route admits reaches the note handler with that tenant attached |
| `Routes.MemberCannotUpgrade` | server/src/routes/tenant.route.ts:8 | an authenticated member gets 403 `INSUFFICIENT_PERMISSIONS` and no tenant changes |
| `Routes.ForeignAdminCannotUpgrade` | server/src/routes/tenant.route.ts:8 | an admin of another tenant is refused by isolation with 403 and no tenant changes |
| `Routes.UpgradeSlugAlwaysMatches` | server/src/controllers/tenant.controller.ts:27-32 | behind the upgrade guards the controller's own foreign-slug 403 never happens |
| `Routes.AuthRoutesIgnoreAccessToken` | server/src/routes/auth.route.ts:7-9 | login, logout and refresh give the same result whatever access cookie or header is sent |
| `Routes.LoginIgnoresAccessToken` | server/src/routes/auth.route.ts:7 | login does not read the access token |
| `Routes.LogoutIgnoresAccessToken` | server/src/routes/auth.route.ts:8 | logout does not read the access token |
| `Routes.RefreshIgnoresAccessToken` | server/src/routes/auth.route.ts:9 | refresh does not read the access token |
| `Routes.MeWithoutCredentials` | server/src/routes/auth.route.ts:10 | `/me` without credentials gives 401 `ACCESS_TOKEN_MISSING` |
| `Routes.MeReportsAuthenticatedCaller` | server/src/controllers/auth.controller.ts:196-225 | `/me` after authentication answers 200 with exactly the user and tenant authentication attached, so its own 401 branch is never taken |
| `Invariants.IssuedRecordMatches` | server/src/utils/jwt.ts:20-29 | the record stored for an issued token holds that token's user, tenant and expiry |
| `Invariants.IsolatedCaller` | server/src/middleware/tenantIsolation.ts:52-76 | a request passing authentication and isolation carries the stored caller and the caller's own stored tenant |
| `Invariants.NoteGuardsFacts` | server/src/routes/notes.route.ts:16-17 | behind the note guards the request carries the token's stored user and that user's own tenant |
| `Invariants.UpgradeGuardsFacts` | server/src/routes/tenant.route.ts:8 | behind the upgrade guards the caller is an admin, the tenant is its own, and the slug is that tenant's |
| `Invariants.AddNoteKeepsWf` | server/src/controllers/notes.controller.ts:55-60 | adding a valid note of a user in its own tenant under the next id keeps the store invariant |
| `Invariants.ReplaceNoteKeepsWf` | server/src/controllers/notes.controller.ts:243-251 | rewriting a note's text, keeping its id, tenant and author, keeps the invariant |
| `Invariants.RemoveNoteKeepsWf` | server/src/controllers/notes.controller.ts:303-307 | removing a note keeps the invariant |
| `Invariants.ReplaceTenantKeepsWf` | server/src/controllers/tenant.controller.ts:42-49 | changing a tenant's plan and quota consistently, keeping its slug, keeps the invariant |
| `Invariants.TokensChangeKeepsWf` | server/src/controllers/auth.controller.ts:156-167 | changing only refresh records keeps the invariant when every record matches its token |
| `Invariants.RecordsWfIssue` | server/src/utils/jwt.ts:20-29 | adding the record of an issued token keeps every record matching its token |
| `Invariants.RecordsWfRemove` | server/src/controllers/auth.controller.ts:94 | removing records keeps the rest matching their tokens |
| `Pipeline.NoteCountAfterAdd` | server/src/controllers/notes.controller.ts:45-60 | adding a note under the next id raises its tenant's count by exactly one |
| `Pipeline.CreateNoteGuarded` | server/src/controllers/notes.controller.ts:44-60 | behind the guards, a create touches only the caller's tenant; a change is exactly one added note by the caller, made under quota, raising the count by one |
| `Pipeline.CreateNoteKeepsWf` | server/src/controllers/notes.controller.ts:44-60 | a create keeps the invariant, and a free tenant ends with at most 3 notes |
| `Pipeline.GetNotesGuarded` | server/src/controllers/notes.controller.ts:119-125 | behind the guards, the listing returns only notes of the caller's tenant and changes nothing |
| `Pipeline.GetNoteByIdGuarded` | server/src/controllers/notes.controller.ts:176-179 | behind the guards, a fetch by id returns only a note of the caller's tenant and changes nothing |
| `Pipeline.UpdateNoteGuarded` | server/src/controllers/notes.controller.ts:243-251 | behind the guards, an update that changes anything rewrites exactly the named note, which the caller wrote, and it stays the caller's |
| `Pipeline.UpdateNoteKeepsWf` | server/src/controllers/notes.controller.ts:243-258 | an update keeps the invariant |
| `Pipeline.DeleteNoteGuarded` | server/src/controllers/notes.controller.ts:303-307 | behind the guards, a delete that changes anything removes exactly the named note, which the caller wrote |
| `Pipeline.DeleteNoteKeepsWf` | server/src/controllers/notes.controller.ts:303-314 | a delete keeps the invariant |
| `Pipeline.ToggleGuarded` | server/src/controllers/tenant.controller.ts:42-49 | the toggle either changes nothing or switches the tenant it was given, and keeps the invariant |
| `Pipeline.LoginRecords` | server/src/controllers/auth.controller.ts:52 | the record login adds matches its token |
| `Pipeline.LoginKeepsWf` | server/src/controllers/auth.controller.ts:45-53 | login keeps the invariant |
| `Pipeline.RefreshRecords` | server/src/controllers/auth.controller.ts:137-167 | refresh keeps every record matching its token |
| `Pipeline.RefreshIssuedRecords` | server/src/controllers/auth.controller.ts:156-167 | a successful refresh replaces the presented record by a matching one |
| `Pipeline.RefreshKeepsWf` | server/src/controllers/auth.controller.ts:119-187 | refresh keeps the invariant |
| `Pipeline.LogoutKeepsWf` | server/src/controllers/auth.controller.ts:89-110 | logout keeps the invariant |
| `Pipeline.NoteHandlerGuarded` | server/src/routes/notes.route.ts:19-23 | each note handler behind the guards is scoped to the caller's tenant and keeps the invariant |
| `Pipeline.ServeNoteRoute` | server/src/routes/notes.route.ts:16-23 | a note route is its guards then its handler: a halt answers with no body and no change |
| `Pipeline.NoteRoutesIsolateTenants` | server/src/routes/notes.route.ts:16-17 | a note request keeps the invariant, changes no tenant, user or refresh record, and anything it changes or returns belongs to the caller's tenant |
| `Pipeline.WriterGuarded` | server/src/controllers/notes.controller.ts:243-248 | behind the guards, an update or delete changes at most the one named note, which the caller wrote |
| `Pipeline.OnlyAuthorsModify` | server/src/controllers/notes.controller.ts:243-307 | through the routes, an update or delete that changes anything changes exactly the named note, and its author is the caller |
| `Pipeline.CreateAddsCallersNote` | server/src/controllers/notes.controller.ts:55-60 | through the route, a create that changes anything adds exactly one note by the caller in the caller's tenant |
| `Pipeline.QuotaRespected` | server/src/controllers/notes.controller.ts:44-53 | through the route, a create raises the caller's tenant count by one and, for a free tenant, only from below 3 |
| `Pipeline.UpgradeSwitchesOwnTenant` | server/src/routes/tenant.route.ts:8 | the upgrade route changes nothing or switches the plan of the admin caller's own tenant, keeping the invariant |
| `Pipeline.DispatchPreservesWf` | server/src/routes/notes.route.ts:16-23 | every request on every route keeps the store invariant |
| `Sessions.RunPreservesWf` | server/src/routes/auth.route.ts:7-10 | every run of requests from a well-formed store ends in a well-formed store |
| `Sessions.LoginIssuesNow` | server/src/controllers/auth.controller.ts:52 | the record login adds is for a token issued in that second |
| `Sessions.RefreshIssuesNow` | server/src/controllers/auth.controller.ts:166 | the record refresh adds is for a token issued in that second |
| `Sessions.NewRecordsIssuedNow` | server/src/utils/jwt.ts:20-29 | any record any request adds is for a token issued in that request's second |
| `Sessions.RevokedStaysRevoked` | server/src/controllers/auth.controller.ts:137-143 | a token that is not stored stays unstored through any run not issuing it again, and every refresh with it fails |
| `Sessions.OneShotRefresh` | server/src/controllers/auth.controller.ts:156-167 | once a refresh with a token succeeds, no later refresh with the same token succeeds |
| `Sessions.RefreshStoresIssued` | server/src/controllers/auth.controller.ts:166 | a successful refresh stores the token it issues |
| `Sessions.SameSecondRefreshReissues` | server/src/controllers/auth.controller.ts:156-167 | a refresh in the second its token was issued re-issues the same text, which therefore stays stored |
| `Expiry.Sweep` | server/src/models/RefreshToken.ts:36 | the background deletion removes exactly the chosen records and nothing else |
| `Expiry.IssuedNotExpired` | server/src/models/RefreshToken.ts:36 | a token issued now is never among the expired ones |
| `Expiry.VerifiedNotExpired` | server/src/controllers/auth.controller.ts:134 | a token that verifies now has not expired |
| `Expiry.ExpiredRecords` | server/src/models/RefreshToken.ts:27-36 | records whose expiry date has passed are records of expired tokens |
| `Expiry.LoginIgnoresSweep` | server/src/controllers/auth.controller.ts:45-53 | login after a deletion of expired records answers the same and leaves the swept store |
| `Expiry.RefreshIgnoresSweep` | server/src/controllers/auth.controller.ts:133-167 | refresh after a deletion of expired records answers the same and leaves the swept store |
| `Expiry.DispatchIgnoresSweep` | server/src/models/RefreshToken.ts:36 | any request after a deletion of expired records answers the same and leaves the swept store |
| `Expiry.SweepTwice` | server/src/models/RefreshToken.ts:36 | two deletions are one deletion of both sets |
| `Expiry.SweptRunAgrees` | server/src/models/RefreshToken.ts:36 | a run with deletions of expired records between calls answers as the run without them, ending in the swept store |
| `Expiry.SweepsInvisible` | server/src/models/RefreshToken.ts:36 | the background expiry never changes any reply of a run whose clock does not go back |
| `Expiry.EarlySweepRefused` | server/src/controllers/auth.controller.ts:136-143 | deleting the record of a token that a refresh would accept makes that refresh fail with 401, and such a token is not expired |
| `Seed.CreateTenant` | server/src/scripts/seed.ts:22-34 | a created tenant is added under the next id and nothing else changes |
| `Seed.CreateUser` | server/src/scripts/seed.ts:39-64 | a created user is added under the next id and nothing else changes |
| `Seed.SeedWith` | server/src/scripts/seed.ts:12-17 | with any tenant stored, seeding changes nothing |
| `SeedProofs.NewTenantAccepts` | server/src/scripts/seed.ts:22-34 | the schema stores a well-formed tenant spec unchanged |
| `SeedProofs.NewUserAccepts` | server/src/scripts/seed.ts:39-64 | the schema stores a well-formed user spec unchanged, with the hashed password |
| `SeedProofs.CreateTenantsStores` | server/src/scripts/seed.ts:22-34 | well-formed tenant specs with free slugs are all stored as specified |
| `SeedProofs.CreateUsersStores` | server/src/scripts/seed.ts:39-64 | well-formed user specs with free emails are all stored as specified |
| `SeedProofs.NoTenantsNoUsers` | server/src/scripts/seed.ts:12-17 | a well-formed store without tenants has no users and no notes |
| `SeedProofs.SeedFromEmpty` | server/src/scripts/seed.ts:19-64 | seeding an empty database with valid data writes exactly the specified tenants then users |
| `SeedProofs.SeededLayout` | server/src/scripts/seed.ts:22-64 | the tenants sit at consecutive ids, then the users, each user referring to its tenant's id |
| `SeedProofs.SeededWf` | server/src/scripts/seed.ts:22-64 | the seeded store satisfies the invariant and has no notes |
| `SeedProofs.SeededShapes` | server/src/scripts/seed.ts:22-64 | seeded tenants are free and of the schema's shape; seeded users have the schema's shape and accept the password `password` |
| `SeedProofs.SeedIdempotent` | server/src/scripts/seed.ts:12-17 | running the script a second time changes nothing |
| `SeedProofs.ScriptDataValid` | server/src/scripts/seed.ts:22-64 | the script's own names, slugs and emails are valid seed data |
| `SeedProofs.SeededTwoTenants` | server/src/scripts/seed.ts:22-34 | two tenant specs give exactly two free tenants with quota 3 |
| `SeedProofs.SeededFourUsers` | server/src/scripts/seed.ts:39-64 | four user specs give exactly four users with the seed password |
| `SeedProofs.ScriptSeeded` | server/src/scripts/seed.ts:22-64 | the script writes Acme and Globex, and an admin and a member of each, each user in the tenant of its e-mail domain |
| `SeedProofs.ScriptSeedsAcmeAndGlobex` | server/src/scripts/seed.ts:6-78 | on a well-formed empty database the script succeeds and writes exactly those two tenants and four users, with no notes |
| `ClientAuth.IsUnauthenticated` | client/hooks/useAuth.tsx:49-56 | an error counts as unauthenticated iff its status is 401 or its code is one of the six authentication codes |
| `ClientAuth.QueryEnabled` | client/hooks/useAuth.tsx:39-40 | the user query runs on every page but `/login` |
| `ClientAuth.Observed` | client/hooks/useAuth.tsx:40-41 | a disabled query is not loading and keeps its cached data and error |
| `ClientAuth.UseAuth` | client/hooks/useAuth.tsx:36-87 | authenticated iff the data has a user and a tenant and there is no error; authenticated excludes unauthenticated and an error; admin iff the role is admin; a redirect happens iff unauthenticated, not loading and not on `/login` |
| `ClientAuth.AuthenticateFailuresUnauthenticated` | server/src/middleware/auth.ts:47-98 | every reply with which `authenticate` stops a request is classified unauthenticated by the client |
| `ClientAuth.RequireRoleFailures` | server/src/middleware/auth.ts:119-141 | a `requireRole` refusal is classified unauthenticated iff there was no user; `INSUFFICIENT_PERMISSIONS` is not |
| `ClientAuth.FailedMeRedirects` | client/hooks/useAuth.tsx:58-71 | a failed `/me` reply sends the browser to `/login` from any other page once the query settles |
| `ClientAuth.LoginPageNeverRedirects` | client/hooks/useAuth.tsx:39-40 | on `/login` nothing loads and nothing redirects |
| `ClientAuth.OnRefreshError` | client/hooks/useAuth.tsx:147-161 | the cache is always cleared; the redirect happens iff the code is one of the three refresh-token codes |
| `ClientAuth.RefreshUserNeverRedirects` | client/hooks/useAuth.tsx:147-159 | the user refresh calls `/me`, which never replies with a refresh-token code, so it never redirects |
| `ClientAuth.MeReplyCodes` | server/src/routes/auth.route.ts:10 | every code `/me` replies with is an authentication code |
| `ClientNotes.NotesQueryEnabled` | client/hooks/useNotes.tsx:25 | the notes query runs iff the user is authenticated and a member |
| `ClientNotes.AdminsNeverFetch` | client/hooks/useNotes.tsx:25 | an admin may list notes on the server, but its client never asks |
| `ClientNotes.NextPageParam` | client/hooks/useNotes.tsx:26-35 | the next page is `currentPage + 1`, and within `totalPages`, iff pagination is present, `hasMore` holds and the current page is below `totalPages`; otherwise there is none |
| `ClientNotes.Flatten` | client/hooks/useNotes.tsx:44 | no pages give no notes, and the first page's notes come first |
| `ClientNotes.FlattenAppend` | client/hooks/useNotes.tsx:44 | flattening distributes over concatenating page lists |
| `ClientNotes.FlattenSingle` | client/hooks/useNotes.tsx:44 | one page flattens to its notes, or to nothing when the array is missing |
| `ClientNotes.PageRequestServed` | client/hooks/useNotes.tsx:22-24 | the request for page `p` with size 10 skips `(p-1)*10` notes and is answered by the server's page `p` of the tenant's listing |
| `ClientNotes.NextOfServerPage` | client/hooks/useNotes.tsx:26-35 | after the server's page `p` the client asks for `p + 1` iff notes remain beyond it |
| `ClientNotes.Walk` | client/hooks/useNotes.tsx:22-35 | following the next-page rule from page `p` fetches the server's page `p` first and ends on a page with no next page |
| `ClientNotes.WalkLength` | client/hooks/useNotes.tsx:26-35 | from page `p` the walk fetches exactly the remaining pages, or one page when none remain |
| `ClientNotes.WalkFromFirstBounded` | client/hooks/useNotes.tsx:26-35 | from page 1 the walk stops after exactly `totalPages` pages, or after one page for a tenant without notes |
| `ClientNotes.WalkCollects` | client/hooks/useNotes.tsx:44 | the flattened pages from page `p` on are exactly the listing from that page's first note on |
| `ClientNotes.WalkCollectsListing` | client/hooks/useNotes.tsx:22-44 | following the pages from the first one, the client ends up with the tenant's whole listing, in order, without repeats |
| `ClientNotes.ServiceRepeatsFirstPage` | client/services/notes.service.ts:5-8 | with more than 6 notes, the service as written keeps being offered page 2 but is served the first 6 notes again |
| `ClientInvite.MatchesEmailPattern` | client/hooks/useTenantMutation.tsx:39-42 | the scan accepts iff there is no white space, exactly one `@` with text before it, and a `.` after it with text on both sides |
| `ClientInvite.Invite` | client/hooks/useTenantMutation.tsx:27-53 | success iff the caller is an admin, a tenant is present, the email matches the pattern and is not listed; a non-admin is refused first, then a missing tenant, then the format, then the list |
| `ClientInvite.InviteOrder` | client/hooks/useTenantMutation.tsx:30-52 | each refusal implies that every earlier check passed |
| `ClientInvite.ExistingAreSeeded` | client/hooks/useTenantMutation.tsx:45-49 | the listed addresses are exactly the seed script's, in order |
| `ClientInvite.CapitalisedSeededPasses` | client/hooks/useTenantMutation.tsx:45-49 | worked example, one constant address: the comparison is case-sensitive, so `Admin@acme.test`, the seeded admin's address with its first letter capitalised, passes the check |
| `Header.FirstLetters` | client/components/layout/header.tsx:38-40 | at most one letter per segment |
| `Header.FirstLettersAppend` | client/components/layout/header.tsx:38-40 | the letters of consecutive segment lists follow each other |
| `Header.EmptySegmentsSkipped` | client/components/layout/header.tsx:38-40 | an empty segment adds no letter |
| `Header.Initials` | client/components/layout/header.tsx:36-42 | at most two characters; the i-th is the upper-cased first letter of the i-th non-empty `.`-segment of the text before the first `@` |
| `Header.InitialsIgnoreDomain` | client/components/layout/header.tsx:37 | only the text before the first `@` matters |
| `Header.TwoSegmentInitials` | client/components/layout/header.tsx:36-42 | `first.last@domain` gives the two upper-cased first letters |

## Left out

- Mongoose internals are not modelled: query execution, `populate`, connections. Lookups are exact matches over the maps, so the slug and email setters are not applied to query values. The `populate` of a note's author is not modelled.
- JWT and bcrypt are not modelled as algorithms:
  - tokens are an injective text encoding with the secrets as tags;
  - the `JWT_*_EXPIRES_IN` overrides are not modelled, only the defaults of 15 minutes and 7 days;
  - bcrypt is an arbitrary `hash` function.
- `Jwt.GenerateTokens`, `Expiry.SweepsInvisible`, `Expiry.SweptRunAgrees`, `Expiry.DispatchIgnoresSweep`, `Expiry.ExpiredRecords`: the record's expiry is the issue time plus exactly 604800 seconds. `setDate(getDate() + 7)` gives that only on a server clock without daylight-saving changes, such as UTC. On a local clock whose week crosses the start of summer time, seven calendar days are an hour shorter. The record then expires before its token, the TTL monitor may delete it while the token still verifies, and a refresh in that hour is refused with 401 (`Expiry.EarlySweepRefused`). The store invariant's equality of record and token expiry, and with it the invisibility of background expiry, is promised only for such a clock.
- `Jwt.WrongSecretRejected`, `AuthMiddleware.RefreshTokenRejected`: the two secrets are distinct by construction. In the source they are the values of `JWT_SECRET` and `JWT_REFRESH_SECRET`, which a deployment may set equal. A refresh token then verifies as an access token for its 7-day lifetime. Both lemmas hold only when the two values differ.
- `Header.FirstLetters`, `Header.Initials`, `Header.TwoSegmentInitials`: a character is a Unicode scalar value. For a segment that starts with a character beyond U+FFFF, JavaScript's `part[0]` and `slice(0, 2)` take a lone surrogate half, where the model takes the whole character. The schema lengths do count UTF-16 code units (`Text.Utf16Length`).
- `Text.Lower`, `Text.Upper`, `Models.Normalize`: only ASCII letters change case, where `toLowerCase`/`toUpperCase` map all of Unicode. Other Unicode case mapping is left out.
- `app.ts` mounts only the health router. The model serves the auth, notes and tenant routers as if mounted.
- `Paging.SortNewestFirst`: only the model breaks ties in creation time by id. MongoDB leaves the order of equal keys unspecified, and it may differ between the queries of two pages. `Paging.NewestFirstUnique` and the no-repeat promise of `ClientNotes.WalkCollectsListing` rest on that tie-break. `Paging.CreatedAtOrderIsListing` shows that the tie-break decides nothing when creation times differ. Creation times are whole seconds, where the source's are milliseconds.
- The 500 reply of `getNotes` carries the exception's message in an `error` member. The model drops that member.
- Requests are served one at a time. The count-then-insert race of the quota and the delete-then-reissue gap of refresh are not modelled.
- Express plumbing is left out: helmet, CORS, body parsing, the rate limiter, and the check that a status code is valid.
- Health checks keep only the classification and the aggregation over whole milliseconds. The random delays, timestamps, uptime, memory/CPU metrics and the singleton are left out.
- Query parameters given as arrays are not modelled.
- `parseInt` loses precision on huge numbers. The model uses unbounded integers.
- A rejected promise in `enforceTenantIsolation` (a throwing store, or a `null` populated tenant) leaves the request without a reply. This is modelled as a reply with status 0.
- The store invariant does not include the trimmed and lower-cased shape of names, slugs and emails. No endpoint writes them, and the seed proofs state the shape separately.
- A `ValidationError` without an `errors` member makes the handler itself throw. The model always carries a list of field messages.
- Seeding: a duplicate or an invalid document ends the script as a failure. The documents written before it are not modelled. The array passed to `User.create` is modelled as creations one after the other. The proofs hold for any seed data of the script's shape, and in particular for the script's own.
- The TTL monitor may delete any records whose expiry date has passed, between any two requests. Its timing is not modelled.
- `Sessions.OneShotRefresh`: stated only when the first refresh comes in a later second than the token's issue. A refresh in the same second re-issues the identical token text, and `Sessions.SameSecondRefreshReissues` shows that this token stays valid.
- `ClientNotes.WalkFromFirstBounded`: the walk is bounded by `totalPages` only when the tenant has notes. With none, `totalPages` is 0 but the first page is still fetched.
- Client code outside the decisions above is left out:
  - UI components;
  - the axios wrappers and interceptors;
  - the query library's retries, cache and keys;
  - the artificial delay and the log line of the invitation;
  - the login, logout and note mutations;
  - the window check before redirecting.

## Findings

| source | as written | input that shows it | evidently intended | confidence | as-written member | corrected member |
|---|---|---|---|---|---|---|
| server/src/routes/notes.route.ts:13-17 | the router is built with `Router()` without `mergeParams`, and none of its paths has a `:slug`, so the `enforceTenantIsolation` it mounts reads `req.params.slug` as undefined | an authenticated member's `POST /notes` with a valid title and content is answered 400 `Tenant slug is required`, and no note is created | the slug of the URL reaches tenant isolation, for instance with the router mounted under `/:slug/notes` and built with `Router({ mergeParams: true })` | not executed | `Routes.NoteRoutesAsWrittenRefuse` | `Routes.OwnCallerReachesHandler` |
| client/services/notes.service.ts:5-8 | `getNotes` ignores its argument and requests `/notes` without `page` or `limit`, so every fetch is the server's default page 1 of size 6 | a tenant with 7 notes: the first page reports `hasMore` and `totalPages` 2, the client asks for page 2, and it receives the same 6 notes again; the seventh note never appears, once the notes router itself answers (row above) | request `page` = the page parameter and `limit` = 10, as the hook passes them | not executed | `ClientNotes.ServiceRepeatsFirstPage` | `ClientNotes.WalkCollectsListing` |
