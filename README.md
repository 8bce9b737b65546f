# Admin access gate of the storefront server, in Dafny

The storefront server (`site/Site/server.js`) is mostly Express routes over JSON files.
This project models the part of it that has state and rules: the gate in front of the
admin surface, and the small list rules that the mutating handlers apply.

- **Lockout table** (`Lockout`, `AdminGate.AdminServer`). Each client key has at most
  one record `{fails, first, lockUntil}`. The key is normally the normalised address;
  when that is empty, requireAdmin falls back to the raw address (server.js:122-123).
  `registerFail` counts a failure inside a window of `WINDOW_MS`. When the window has
  expired it restarts the record. Reaching `MAX_FAILS` locks the key until `LOCK_MS`
  from now. `registerSuccess` deletes the record.
- **Credentials** (`BasicAuth`). The decoded `user:pass` is split at the first colon, as
  in section 2 of RFC 7617. Both parts are compared with a constant-time loop: a length
  check, then a bitwise AND over every position.
- **Client address** (`ClientAddress`). `getClientIp` takes the first comma-separated
  entry of `X-Forwarded-For`, trimmed, else the framework's address. `normalizeIp` strips
  one `::ffff:` prefix and maps `::1` to `127.0.0.1`.
- **Three gates** (`AdminGate`):
  - `requireAdmin` guards the admin page. It checks the bypass, then the header, then
    the lock, then the credentials, and does the lockout bookkeeping.
  - `requireAdminWrite` guards mutating `/api/` calls. It admits on bypass or valid
    Basic credentials.
  - `requireAdminStrong` guards the security configuration. It accepts Basic
    credentials only.
  
  A refusal is a 401 with a `WWW-Authenticate` challenge (section 4.1 of RFC 7235) or a
  429 (section 4 of RFC 6585).
- **Handler rules**:
  - the security-config update: validation, merge and reload (`SecurityConfig`);
  - the ordering list clean-up (`Ordering`);
  - article add, update and delete, and the save-computer upsert (`Articles`).

Pure logic is modelled as functions with lemmas. The module-level mutable state of the
server (`authAttempts` and `runtimeConfig`) is the class `AdminGate.AdminServer`. The
articles list that the handlers push to and assign into is the class
`Articles.ArticleStore`. Each method's ensures gives its answer and the new state, the
gate methods by the function that specifies them. The facts the server relies on are
proved about those functions.

Three consequences of the code are worth knowing:
- Bypass deletes the address's attempt record, because `registerSuccess` is called
  (server.js:131-134).
- A request for the admin page without a `Basic ` header is counted as a failure before
  the lock is looked at (server.js:137-148). So, once the failure window has expired and
  `MAX_FAILS` is above one, it ends a running lock (`AdminGate.HeaderlessRequestEndsExpiredLock`).
- `requireAdminWrite` is installed for every request (server.js:197). So the
  security-config PUT passes it before `requireAdminStrong`.

Inputs that the server reads from outside are parameters:
- the clock: `now`, one reading per request;
- base64 decoding of the header remainder: `decode: string -> string`;
- the lockout constants: `Lockout.Policy`;
- the administrator account: `BasicAuth.Credentials`.

An absent header or address is the empty string, because the server only ever reads
them through JavaScript's `||`.

## Model

| member | source | states |
|---|---|---|
| `Text.OrElse` | site/Site/server.js:110 | `a \|\| b` on strings: `a` when it is non-empty, otherwise `b`; empty only when both are |
| `Json.Truthy` | site/Site/server.js:235-238 | the falsy JSON values are exactly `undefined`, `null`, `false`, `0` and the empty string |
| `Text.StartsWithSplits` | site/Site/server.js:97 | `startsWith` holds exactly when the string is the prefix followed by the rest |
| `Text.IndexOf` | site/Site/server.js:151 | -1 exactly when the character is absent; otherwise its index, with no earlier occurrence |
| `Text.FirstField` | site/Site/server.js:107 | `split(',')[0]`: a separator-free prefix that is the whole string or is followed by the separator |
| `Text.FirstFieldOfPlain` | site/Site/server.js:107 | a string without a comma is its own first field |
| `Text.TrimStart` | site/Site/server.js:107 | removes exactly the leading white space (a suffix whose first character is not white space) |
| `Text.TrimEnd` | site/Site/server.js:107 | removes exactly the trailing white space |
| `Text.Trim` | site/Site/server.js:107 | the result sits in the input with only white space before and after it, and neither starts nor ends with white space; empty exactly when the input is all white space |
| `Text.TrimOfPlain` | site/Site/server.js:107 | a string without white space is unchanged by trim |
| `ClientAddress.NormalizeIp` | site/Site/server.js:95-100 | `::1` never survives; the result is the input, the input minus one `::ffff:` prefix, or `127.0.0.1`; empty stays empty |
| `ClientAddress.NormalizeIpCases` | site/Site/server.js:95-100 | the exact result: prefix stripped once, then `::1` mapped; any other input unchanged |
| `ClientAddress.MappedNotationAgrees` | site/Site/server.js:97-98 | an address with the `::ffff:` prefix normalises like the address without it |
| `ClientAddress.NormalizeIpStripsOnce` | site/Site/server.js:97 | a doubly prefixed address keeps one prefix, so normalisation is not idempotent |
| `ClientAddress.LoopbacksNormalize` | site/Site/server.js:97-98 | both `::1` and `127.0.0.1` normalise to `127.0.0.1` |
| `ClientAddress.ClientIp` | site/Site/server.js:103-111 | forwarded header present: its first entry, trimmed and normalised; otherwise `req.ip`, else the socket address, normalised |
| `ClientAddress.AdminClientIp` | site/Site/server.js:122-123 | requireAdmin's key is the client address when that is non-empty; otherwise `req.ip`, else the socket address, else `unknown`, none of them normalised; never empty |
| `ClientAddress.ApiClientIp` | site/Site/server.js:175 | requireAdminWrite's key is the client address, or `unknown` when that is empty |
| `ClientAddress.ClientIpOfSingleForwarded` | site/Site/server.js:105-108 | a forwarded header holding one plain address yields that address normalised |
| `ClientAddress.ForwardedNotationAgrees` | site/Site/server.js:103-108 | forwarded `::ffff:a` and `a` give the same client address |
| `ClientAddress.ForwardedLoopbackAgrees` | site/Site/server.js:103-108 | forwarded `::1` and `127.0.0.1` give the same client address |
| `BasicAuth.SplitCredentials` | site/Site/server.js:150-153 | the user has no colon and `user:pass` rebuilds the input; without a colon the user is everything and the password empty |
| `BasicAuth.SplitJoin` | site/Site/server.js:150-153 | splitting `user:pass` for a colon-free user gives back exactly user and password |
| `BasicAuth.ConstantTimeEqual` | site/Site/server.js:87-92 | true exactly when the strings are equal; compares every position when the lengths agree, none otherwise |
| `BasicAuth.IsBasic` | site/Site/server.js:138 | a Basic header is `Basic ` followed by the encoded credentials |
| `BasicAuth.Presented` | site/Site/server.js:150-153 | the credentials of a Basic header: the decoded text split at its first colon, or all of it as the user with an empty password |
| `BasicAuth.ValidBasic` | site/Site/server.js:150-156 | only a Basic header can be valid, and an administrator user holding a colon can never be presented |
| `BasicAuth.ValidBasicIff` | site/Site/server.js:150-155 | a Basic header is valid exactly when it decodes to `user:pass`, or to the bare user when the password is empty |
| `Lockout.Lookup` | site/Site/server.js:144 | `authAttempts.get(ip)`: a record exactly when the address has one |
| `Lockout.Restarts` | site/Site/server.js:70-74 | an address without a record always starts a fresh one; a record still inside its window is continued |
| `Lockout.IsLocked` | site/Site/server.js:145 | a locked record has a lock end in the future; with a non-negative clock that is also enough |
| `Lockout.AfterFail` | site/Site/server.js:69-81 | restart at one failure when there is no record or its window expired, else one more; lock set at the threshold, otherwise the old lock (none after a restart) |
| `Lockout.RetryAfterSeconds` | site/Site/server.js:146 | the wait in seconds is positive and the smallest whole number of seconds covering the rest of the lock |
| `Lockout.Remaining` | site/Site/server.js:162 | zero exactly when the threshold is reached; otherwise failures plus remaining make the threshold |
| `Lockout.NoneRemainingMeansLocked` | site/Site/server.js:76-78 | a failure reported with no attempt left locks the address until LOCK_MS from now |
| `Lockout.SuccessRestartsCount` | site/Site/server.js:83-85 | after registerSuccess the next failure starts at one failure with a fresh window |
| `Lockout.FailSeries` | site/Site/server.js:69-81 | repeated failures for one address always leave a record |
| `Lockout.FailuresAccumulate` | site/Site/server.js:69-81 | failures inside the window add one each, keep the window start, and lock LOCK_MS after the last once the threshold is reached |
| `Lockout.ConsecutiveFailuresLock` | site/Site/server.js:69-81 | from no record, n failures in the first one's window count n; at or over the threshold they lock the address until LOCK_MS after the last, below it there is no lock |
| `Lockout.ExpiredWindowDropsLock` | site/Site/server.js:72-74 | with a threshold above one, a failure after the window expired restarts the record at one failure and drops a running lock |
| `Lockout.DefaultPolicyLocksAfterEight` | site/Site/server.js:60-62 | with the default settings, eight failures in fifteen minutes lock the address for thirty minutes after the eighth; seven leave it unlocked |
| `SecurityConfig.TrimAll` | site/Site/server.js:245 | entry i of the result is the trim of entry i, for every entry |
| `SecurityConfig.CleanWhitelist` | site/Site/server.js:245 | every entry kept is non-empty with no white space at either end, and there are no more than given |
| `SecurityConfig.CleanWhitelistKeepsOrder` | site/Site/server.js:245 | the cleaned whitelist is a subsequence of the trimmed entries, so their order is kept |
| `SecurityConfig.CleanWhitelistKeepsCounts` | site/Site/server.js:245 | each non-blank trimmed entry is kept as many times as it occurs, and no blank one is kept |
| `SecurityConfig.CleanWhitelistMembers` | site/Site/server.js:245 | the cleaned whitelist holds exactly the non-blank trimmed entries |
| `SecurityConfig.ValidateUpdate` | site/Site/server.js:234-246 | refused exactly for a truthy non-array whitelist, a non-string entry, or a present non-boolean bypass, in that order; otherwise only the given fields change |
| `SecurityConfig.Bypassed` | site/Site/server.js:124-131 | bypass applies exactly when the switch is on and the address is listed; the non-empty test adds nothing |
| `SecurityConfig.Reloaded` | site/Site/server.js:44-45 | reading the saved configuration back normalises every whitelist entry and keeps the bypass switch, so `::1` is never listed |
| `SecurityConfig.BypassOffEndsBypass` | site/Site/server.js:241-248 | an update that switches bypass off ends bypass for every address |
| `AdminGate.CredentialCheck` | site/Site/server.js:144-165 | with a Basic header: 429 exactly when locked, with the remaining seconds and no change; admits exactly on unlocked valid credentials and deletes the record; otherwise stores one more failure and reports the attempts left |
| `AdminGate.PageDecision` | site/Site/server.js:124-165 | for one client key: admits exactly on bypass or unlocked valid credentials, deleting the record; a missing header is a 401 that counts a failure; a locked, non-bypassed Basic request gets 429; only that key's record changes |
| `AdminGate.AdminDecision` | site/Site/server.js:119-166 | other paths pass untouched; admits exactly on bypass or an unlocked valid Basic header; only the client's record changes; a locked, non-bypassed Basic request gets 429, which leaves the table alone and gives the lock's remaining seconds rounded up; every 401 registers a failure; a 401 to a Basic header reports the attempts left |
| `AdminGate.WriteDecision` | site/Site/server.js:169-194 | admits exactly reads, non-API paths, bypass, or valid Basic credentials; otherwise 401 with the API realm; takes no attempt table |
| `AdminGate.IsApiWrite` | site/Site/server.js:170-172 | only mutating calls are guarded, never GET, HEAD or OPTIONS; the security-config PUT is guarded |
| `AdminGate.StrongDecision` | site/Site/server.js:203-221 | admits exactly on valid Basic credentials; takes no configuration, so no bypass; distinguishes a missing header from bad credentials |
| `AdminGate.SecurityConfigPut` | site/Site/server.js:232-249 | updated exactly with valid credentials and a valid body; refused exactly without valid credentials, by requireAdminWrite's 401 unless the address is bypassed and then by requireAdminStrong's; an invalid body gets the 400 `ValidateUpdate` gives; a refused or invalid request leaves the configuration as it was |
| `AdminGate.WhitelistNeedsBypass` | site/Site/server.js:124-131 | with bypass off, a whitelisted address still needs valid credentials on both gates |
| `AdminGate.LockedAddressGets429` | site/Site/server.js:144-148 | a locked address presenting a Basic header gets 429 with the lock's remaining seconds, rounded up and positive, and no bookkeeping |
| `AdminGate.HeaderlessRequestEndsExpiredLock` | site/Site/server.js:137-148 | a header-less request after the window expired leaves the address unlocked |
| `AdminGate.MappedNotationSameOutcome` | site/Site/server.js:119-131 | requests differing only by the `::ffff:` prefix of the forwarded address get the same decision and table |
| `AdminGate.BadAttemptsAreCounted` | site/Site/server.js:161 | bad credentials from an unlocked address within the window are counted one registerFail each |
| `AdminGate.RepeatedBadCredentialsLock` | site/Site/server.js:144-165 | MAX_FAILS bad attempts within the window lock a fresh address: the next Basic request before the lock ends gets 429 |
| `AdminGate.AdminServer.constructor` | site/Site/server.js:58-65 | starts with the loaded configuration and an empty attempt table |
| `AdminGate.AdminServer.RegisterFail` | site/Site/server.js:69-81 | stores and returns the record `AfterFail` gives; every other record unchanged |
| `AdminGate.AdminServer.RegisterSuccess` | site/Site/server.js:83-85 | deletes exactly that address's record; a no-op without one |
| `AdminGate.AdminServer.BasicMatches` | site/Site/server.js:150-156 | the constant-time check answers exactly whether the header carries the administrator's credentials |
| `AdminGate.AdminServer.RequireAdmin` | site/Site/server.js:119-166 | decision and new attempt table are those of `AdminDecision` |
| `AdminGate.AdminServer.RequireAdminWrite` | site/Site/server.js:169-194 | decision is that of `WriteDecision`; nothing changes |
| `AdminGate.AdminServer.RequireAdminStrong` | site/Site/server.js:203-221 | decision is that of `StrongDecision`; nothing changes |
| `AdminGate.AdminServer.PutSecurityConfig` | site/Site/server.js:232-249 | reply and new runtime configuration are those of `SecurityConfigPut` |
| `Ordering.KeepFirst` | site/Site/server.js:534-535 | keeps each truthy id not yet seen exactly once, and nothing else |
| `Ordering.CleanOrder` | site/Site/server.js:534-535 | no duplicates, and an id is kept exactly when it is a truthy id of the input |
| `Ordering.PutOrdering` | site/Site/server.js:530-535 | 400 exactly when `order` is not an array; otherwise the cleaned list |
| `Ordering.KeepFirstIsSubsequence` | site/Site/server.js:535 | the filter keeps input order: its result is a subsequence of the input |
| `Ordering.CleanOrderIsSubsequence` | site/Site/server.js:535 | the cleaned list is a subsequence of the input |
| `Ordering.KeepFirstFollowsFirstOccurrences` | site/Site/server.js:535 | kept ids appear in the order of their first occurrences |
| `Ordering.CleanOrderFollowsFirstOccurrences` | site/Site/server.js:535 | the cleaned list keeps the first occurrence of each id |
| `Articles.FindIndexById` | site/Site/server.js:386 | -1 exactly when no article has the id; otherwise the first article with it |
| `Articles.WithoutId` | site/Site/server.js:403-404 | keeps exactly the articles with another id; same length exactly when none had the id |
| `Articles.WithoutIdKeepsOrder` | site/Site/server.js:403 | the filter keeps the remaining articles in their order |
| `Articles.WithoutIdKeepsCounts` | site/Site/server.js:403 | each article with another id is kept as many times as it occurs |
| `Articles.Upserted` | site/Site/server.js:864-871 | the first article with the id becomes the saved one, or the saved one is appended when the id is new; every other position is kept |
| `Articles.UpsertThenFind` | site/Site/server.js:864-871 | looking the saved id up afterwards finds the saved article |
| `Articles.AddKeepsIdsUnique` | site/Site/server.js:367-370 | appending an article with a new id keeps ids unique |
| `Articles.UpsertKeepsIdsUnique` | site/Site/server.js:864-871 | the upsert keeps ids unique |
| `Articles.DeleteKeepsIdsUnique` | site/Site/server.js:403 | deleting keeps ids unique and leaves no article with that id |
| `Articles.ArticleStore.constructor` | site/Site/server.js:365-366 | starts from the parsed list |
| `Articles.ArticleStore.Add` | site/Site/server.js:367-370 | a duplicate id is refused with the list unchanged; otherwise the article is appended |
| `Articles.ArticleStore.Update` | site/Site/server.js:386-388 | not found leaves the list; otherwise only the first article with the string id is replaced |
| `Articles.ArticleStore.Delete` | site/Site/server.js:403-405 | not found when no article has the id; otherwise every such article is removed |
| `Articles.ArticleStore.SaveComputer` | site/Site/server.js:830-871 | a missing id becomes the clock reading; the list becomes the upsert of the saved computer |

## Left out

- Express wiring (`app.use`, `app.get`, `res.status().send`), logging, static files and `app.listen`. Each gate is a function returning a decision instead.
- All file I/O: `ensureFile` and the other `ensure*` helpers, the reads and writes of the JSON files, `loadAdminConfig`'s file handling and defaults from the environment (server.js:30-43, 46-53), `saveAdminConfig`. Lists and configurations are already-parsed values.
- `JSON.parse` and `JSON.stringify`, including the handlers' silent fallback to an empty list when the articles file does not parse.
- Base64 decoding (`Buffer.from(..., 'base64')`, section 4 of RFC 4648). It is the `decode` parameter.
- `Date.now()`. It is the `now` parameter, read once per request, although `registerFail` reads the clock up to three times. In save-computer the clock is the `nowText` id.
- `parseInt` of the lockout settings. They are the integer fields of `Lockout.Policy`; `Lockout.DefaultPolicy` holds the default values.
- The other checks and defaults of save-computer: a missing `nom`, a missing or non-numeric `prix` (`parseFloat`), and the default `categorie`, `description` and `image`. They act on properties the model keeps opaque (`Article.rest`).
- The GET on the security-config route, which only returns the configuration behind `requireAdminStrong`.
- `express.json` is registered after the security-config routes (server.js:232, 256), so the running PUT handler receives no parsed body. The model validates the body as given.
- The HTML script-injection middleware, `/api/explorer`, `/api/check-media`, review archiving, and the other file-backed routes for categories, offers, scam reports, evidence, reviews, announcements and the info page. These are file I/O and response patching.
- How Express derives `req.ip` behind `trust proxy`. It is an input field of `Http.Request`.
- JavaScript strings are UTF-16 code units. Here `string` is a sequence of characters that stand for those units.
- Numbers are integers, so `NaN` and `-0` are not modelled.
- JavaScript `===` and `Set` compare object and array ids by reference. The model compares JSON values by structure (`Ordering`, `Articles`).
- requireAdminWrite short-circuits `userOk && passOk` (server.js:188), so it skips the password comparison after a user mismatch. `AdminServer.RequireAdminWrite` always makes both comparisons. The answer is the same; only the timing differs, and the model does not state timing.
- Concurrency is not modelled. The handlers' read-modify-write of the articles file across asynchronous callbacks can interleave, and `AdminServer` serialises every call.
