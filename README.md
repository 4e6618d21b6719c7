# Delegated Google credentials for a calendar backend — a Dafny model

This project models the per-request credential pipeline of a small calendar
backend, and the helpers around it. A client signs in with Google. The backend
then stores the user's OAuth token pair, with the access token encrypted, and
issues a session JWT. Every `/calendar` request passes two gates:

1. the **session gate** (`JWTMiddleware`) checks the `Authorization: Bearer …`
   header and puts `user_id` and `google_id` into the request context;
2. the **token gate** (`TokenRefreshMiddleware`) looks up the caller's record,
   decrypts the stored access token, refreshes it once when it expires within
   five minutes, and puts the live token into the context.

The calendar service sits behind the gates. It fills default bounds for a
listing, creates a batch of events while collecting the failures, validates
edits, and forwards deletes. The adapter under it maps the API's items and
sorts them by start time.

Modelling conventions:

- Instants are integers: nanoseconds since Go's zero time (`Base.Time`,
  `ZeroTime = 0`). Durations are nanoseconds. `time.Until` is `Base.Sub`, which
  saturates like Go's `Time.Sub`; `Base.SubComparesLikeDifference` shows that
  saturation never changes the five-minute comparison. The clock is a
  parameter, `now`.
- Everything the code calls but that is not part of this model is a
  function-valued parameter. That covers the cipher (`decrypt`, `encrypt`),
  base64 decoding, the OAuth refresh, `CreateFolderId`, JWT signing and
  validation, RFC 3339 rendering and parsing, `AddDate`, the calendar API, and
  the adapter's single-event calls.
- Each gate and service method also returns the list of collaborator calls it
  made. That is how "is not called", "is called exactly once" and "before any
  store access" are stated.
- The user store is the class `Store.UserRepository`. It holds a map from
  Google id to `User` and the next primary key. Database faults are explicit
  `Option<string>` parameters. The repository implementation
  (`repositories/`) is not part of this model; the store contract here is
  assumed: lookup, update of a fetched record, and insert under a fresh id.
- The request context is the class `Http.Context`, a string-to-string map.

## Where the code and the design description differ (the model follows the code)

- **Refresh write-back.** The design says a refreshed access token is
  re-encrypted and stored together with its new expiry. The code writes back
  only the new `Expiry` (middlewares/refresh_token_middleware.go:47-48). The old
  ciphertext and the old refresh token stay in the store, and a rotated refresh
  token is dropped. So the next request inside the new validity window
  decrypts and serves the *old* access token without refreshing.
  `Pipeline.StaleTokenOnNextRequest` proves this sequence.
- **Undecryptable stored token.** The design maps it to "unauthenticated". The
  code answers 400 "failed to decrypt access token".
- **Empty refresh token.** The design wants a fast failure before any network
  call. The code has no such check; the OAuth library behind `refresh` decides.
- **Bad encryption key.** The design wants the process to refuse to start. In
  the token gate the base64 decoding error is overwritten and never checked, so
  a bad key shows up only as a decryption failure. In the login path a missing
  or undecodable key is a per-call error.
- **Upsert.** The design describes one atomic upsert per record. The code looks
  the record up and then calls either `Update` or `Create`. The model shows
  that on every path the store changes by at most one whole record, under the
  caller's Google id (`UserService.ProcessGoogleUser`).
- **Refresh timeout.** The code sets no 10-second bound on the refresh call;
  that is left to the OAuth client.

## Model

| member | source | states |
|---|---|---|
| `Base.Sub` | middlewares/refresh_token_middleware.go:38 | `time.Until`: the difference of two instants, saturated to the int64 Duration range; it is exact inside the range |
| `Base.SubComparesLikeDifference` | middlewares/refresh_token_middleware.go:38 | against any bound below the largest Duration, the saturated difference compares exactly like the true difference, so the margin test is `expiry - now <= 5 min` |
| `Base.TruncateToSecond` | services/user_service.go:140 | the whole-second instant at or below `t`, less than a second earlier (the numeric-date precision of JWT expiry claims) |
| `Store.UserRepository.GetByGoogleID` | middlewares/refresh_token_middleware.go:27 | a fault gives that error; otherwise the stored record exactly when the Google id is present, and NotFound exactly when it is absent |
| `Store.UserRepository.Update` | services/user_service.go:100 | without a fault, the record under its Google id is replaced as a whole; with a fault, nothing changes and the fault is returned; the store invariant is kept |
| `Store.UserRepository.Create` | services/user_service.go:125 | inserts one record under a fresh id (the next primary key) unless there is a fault or a record for that Google id already exists; on failure nothing changes |
| `Http.Context.Set` | middlewares/refresh_token_middleware.go:54 | the context afterwards is the context before, with that one key set |
| `Bearer.HasPrefix` | utils/bearer.go:16 | `strings.HasPrefix`: true exactly when the prefix is no longer than the string and agrees with it character by character |
| `Bearer.TrimPrefix` | middlewares/auth_middleware.go:21 | with the prefix present, `prefix + result == s`; without it, the string is unchanged |
| `Bearer.TrimPrefixUnchangedIff` | middlewares/auth_middleware.go:21-22 | for a non-empty prefix, trimming leaves the header unchanged exactly when the prefix is absent, which is the gate's format test |
| `Bearer.GetBearerToken` | utils/bearer.go:9-22 | "" for an empty header or one without the exact `"Bearer "` prefix; otherwise `"Bearer " + r == header` and `\|r\| == \|header\| - 7`; the result is always a suffix of the header |
| `Bearer.GetBearerTokenOfHeader` | utils/bearer.go:16-21 | inverse: extracting from `"Bearer " + t` gives `t` back |
| `Bearer.GetBearerTokenStripsOnce` | utils/bearer.go:21 | only one prefix is stripped: `"Bearer Bearer " + t` gives `"Bearer " + t` |
| `Bearer.GetBearerTokenCaseSensitive` | utils/bearer.go:16-18 | a lower-case scheme, `"bearer " + t`, gives "" |
| `AuthMiddleware.JWTMiddleware` | middlewares/auth_middleware.go:13-39 | empty header: 401 "Missing authorization header", no validator call; no exact `"Bearer "` prefix: 401 "Invalid authorization header format", no validator call; otherwise the validator gets exactly the header minus one prefix; a validator error gives 401 "Invalid token" with the context untouched; on success the context gains exactly `user_id` and `google_id` from the claims (not the folder id) and `next` runs; `next` runs exactly when all guards pass |
| `AuthMiddleware.GateAndHelperAgree` | utils/bearer.go:16-21 | for every header that passes the gate's format test, the bearer helper returns the same token the gate validates |
| `RefreshMiddleware.TokenRefreshMiddleware` | middlewares/refresh_token_middleware.go:22-57 | lookup failure: 401 "user not found", no decrypt, no refresh, store and context unchanged; decrypt failure: 400, no refresh, nothing changed; more than 5 minutes left: no refresh call, the context token is the decrypted stored token, store unchanged; 5 minutes or less (inclusive): exactly one refresh, with the stored refresh token; refresh failure: 401 "Token refresh failed", `next` not run, store and context unchanged; refresh success: the context token is the new access token, and the stored record is the old one with only `expiry` replaced; a failed write-back still runs `next`; `next` runs exactly when no guard failed |
| `Pipeline.CalendarGroup` | main.go:72-75 | the session gate runs before the token gate; a request the session gate rejects never touches the store; an accepted request leaves `user_id` and `google_id` from the validated claims in the context, together with the decrypted or refreshed access token of that identity's record; every rejection is 401, except the 400 for an undecryptable token |
| `Pipeline.StaleTokenOnNextRequest` | middlewares/refresh_token_middleware.go:32-48 | after a refresh, the store holds the new expiry with the old ciphertext, and a second request inside the new window gets the old decrypted token |
| `UserService.FormatUint` | services/user_service.go:136 | decimal rendering of the user id: non-empty, digits only, no leading zero |
| `UserService.ParseFormatUint` | services/user_service.go:136 | reading the decimal rendering back gives the id |
| `UserService.FormatUintInjective` | services/user_service.go:136 | distinct ids render to distinct strings |
| `UserService.SealAccessToken` | services/user_service.go:70-83 | empty key: "ENCRYPTION_SECRET_KEY is not set"; undecodable key: "failed to decode encryption key: " plus the cause; otherwise exactly the cipher's answer for the access token |
| `UserService.ProcessGoogleUser` | services/user_service.go:69-130 | key or cipher failure: that error, no store access; lookup error other than not-found: propagated, no folder call, no create; existing user with a folder: no folder call, folder kept; existing user without one: a folder first, and if that fails no update; on update, name, email, refresh token, new ciphertext and expiry are replaced while id and Google id stay; not found: a folder first, and if that fails no record; otherwise exactly one new record keyed by the login's Google id, with every field taken from the inputs and a fresh id; the store changes only on success, and only by that one record; the id counter advances by one after a successful create and stays put otherwise |
| `UserService.SessionClaims` | services/user_service.go:133-142 | the `user_id` claim is exactly `FormatUint(user.id)`, the canonical decimal rendering, made of digits that parse back to `user.id`; Google id and folder id are copied; the expiry claim is `TruncateToSecond(now + 24h)`, the whole second at or below `now + 24h` |
| `UserService.GenerateJWT` | services/user_service.go:132-153 | on signing success, the signed claims and the expiry `now + 24h`; on failure, "", a second clock reading and the signing error |
| `UserService.SessionClaimsDistinguishUsers` | services/user_service.go:136 | users with different ids never get the same `user_id` claim |
| `GoogleUtils.AdjustEvent` | utils/googleUtils.go:13-35 | attendees have the input's length and order, with each e-mail copied; summary, description and location copied; start and end carry zone "Asia/Jakarta" and the RFC 3339 rendering of the start and end times; the id is left unset |
| `GoogleUtils.OrZero` | utils/googleUtils.go:39 | a parse failure becomes the zero time |
| `GoogleUtils.ParseDateTime` | utils/googleUtils.go:37-45 | a non-empty date-time takes precedence and is read as RFC 3339; otherwise the date is read as a full date; a parse failure gives the zero time and never an error |
| `GoogleUtils.AdjustThenParse` | utils/googleUtils.go:26-41 | shaping an event and parsing its bounds back gives its start and end times, whenever parsing inverts rendering at those instants |
| `GoogleUtils.AdjustEventKeepsAttendees` | utils/googleUtils.go:14-19 | the attendee list reads back to exactly the input attendees |
| `GoogleAdapter.ToEvent` | adapters/google_calender_adapter.go:46-55 | id, summary, description and location copied; start and end times are `ParseDateTime` of the item's bounds |
| `GoogleAdapter.MapItems` | adapters/google_calender_adapter.go:44-56 | one event per item, in item order |
| `GoogleAdapter.SortByStartTime` | adapters/google_calender_adapter.go:57-59 | afterwards ordered by non-decreasing start time, and a permutation of the input |
| `GoogleAdapter.ListEvents` | adapters/google_calender_adapter.go:27-62 | a client error returns no events and that error, without an API call; the request is the query's calendar and bounds with page size 20; an API error returns no events and that error; otherwise as many events as items, sorted by start time, a permutation of the mapped items |
| `CalendarService.ListQuery` | services/gCalender_service.go:20-31 | an empty start becomes the RFC 3339 rendering of now; an empty end becomes now plus 10 years; non-empty bounds and the calendar id pass through |
| `CalendarService.ListQueryIdempotent` | services/gCalender_service.go:25-31 | with a non-empty rendering, both bounds are set afterwards, and filling the defaults again, at any clock, changes nothing |
| `CalendarService.ListEvents` | services/gCalender_service.go:19-33 | the adapter is asked for the filled query's bounds, and its answer is returned |
| `CalendarService.FailedSummaries` | services/gCalender_service.go:37-44 | the refused events' summaries, never more than there are events |
| `CalendarService.FailedSummariesAppend` | services/gCalender_service.go:37-44 | the failures of a concatenated batch are those of the first part followed by those of the second, so they are listed in input order |
| `CalendarService.FailedSummariesEmptyIff` | services/gCalender_service.go:41-49 | no summary is listed exactly when the adapter accepted every event |
| `CalendarService.FailedSummariesAllRefused` | services/gCalender_service.go:41 | when every event is refused, every summary is listed, in input order |
| `CalendarService.RenderList` | services/gCalender_service.go:46 | `%v` of a string slice: an opening bracket, the space-joined elements, a closing bracket |
| `CalendarService.JoinSpaced` | services/gCalender_service.go:46 | no elements give ""; one element is itself; otherwise the text starts with the first element followed by a single space |
| `CalendarService.SplitJoinSpaced` | services/gCalender_service.go:46 | when no element contains a space, cutting the joined text at spaces gives back exactly the elements, in order |
| `CalendarService.RenderListReadsBack` | services/gCalender_service.go:41-46 | the failure message's list reads back, bracket-stripped and split at spaces, as the list of failed summaries itself, whenever no summary holds a space (and the list is not the single empty summary, which prints as `[]`) |
| `CalendarService.Create` | services/gCalender_service.go:35-50 | every event is shaped and sent, in input order, even after failures; so an empty batch sends nothing and succeeds; the result is nil exactly when no call failed; otherwise the message lists the failed summaries in input order |
| `CalendarService.AsCreateEvent` | services/gCalender_service.go:61-68 | the edit's fields, copied into a new-event value |
| `CalendarService.Update` | services/gCalender_service.go:52-74 | an empty id errors first, without an adapter call; then a zero start or end time errors, without an adapter call; otherwise the adapter gets `AdjustEvent` of the copied fields with the edit's id, and its answer is returned |
| `CalendarService.Delete` | services/gCalender_service.go:76-78 | the token and the event id reach the adapter unchanged, and its answer is returned |

## Left out

- Network calls (`GetUserInfo`, `CreateFolderId`, the OAuth token source
  inside `RefreshAccessToken`, and every calendar client call) are parameters
  that answer with a value or an error. Their HTTP requests, status checks and
  JSON decoding are not modelled.
- `EncryptAccessToken` and `DecryptAccessToken` are not part of this model.
  They are uninterpreted parameters, and no decrypt-after-encrypt round trip is
  assumed anywhere.
- JWT HS256 signing and `ValidateJWT` are parameters. The two secret names
  (`JWT_SECRET` when validating, `constants.JWT_SECRET_KEY` when signing) are
  not assumed to agree. The whole-second truncation of the expiry claim is the
  JWT library's documented numeric-date behaviour, not code in this repository.
- Base64 decoding and environment reads: the key, its encoded form and the
  secrets are parameters.
- RFC 3339 rendering and parsing, `AddDate` and `time.Now` are parameters.
  Time zones and monotonic clock readings are not modelled.
- HTTP shaping and wiring (the controllers and routes) are left out, except for
  the gate order of the `/calendar` group. In the controller,
  `ProcessGoogleUser` is called with three arguments; the two-argument version
  of the service is modelled.
- Panics are not modelled: a failed type assertion on a missing context key,
  and a nil `Start` or `End` pointer in an API item. The token gate requires
  `google_id` in the context, and `Pipeline.CalendarGroup` shows the session
  gate always puts it there first.
- Concurrent refreshes for one identity (last writer wins) are not modelled;
  each method is one sequential request.
- Logging (`fmt.Println`, `log.Println`) is not modelled. The result of `next`
  is abstracted to `CalledNext`.
- The record timestamps gorm maintains (`CreatedAt`, `UpdatedAt`,
  `DeletedAt`) are not modelled. The `uint` id is an unbounded `nat`.
- Go's nil and empty slices are the same empty sequence here. For example,
  `AdjustEvent` with no attendees and a listing with no items both give `[]`.
- CalendarService.Create: the adapter's answer is a function of the token and
  the shaped event, so two identical events in one batch get the same answer.
