# Session tokens of the GraphQL user service, modelled in Dafny

The service issues each user an access token (15 minutes) and a refresh token (7 days).
Both are HS256 JWTs. The access token is signed with `ACCESS_SECRET` and the refresh token
with `REFRESH_SECRET`. Each token carries a fresh UUID session id. Redis maps each session
id to the decimal user id, with a time-to-live equal to the token's lifetime.

This project models that token lifecycle:

- issuing a pair of tokens (`CreateToken`, `createRedisAuth`);
- resolving and revoking a session (`FetchAuth`, `DeleteAuthFromRedis`);
- reading and checking tokens (`GetAuthToken`, `VerifyToken`, `TokenValid`, `ExtractTokenMetadata`);
- the refresh-rotation protocol (`Refresh`);
- the parts of the user resolvers that use all of the above. These are the SET clause of
  `Update`, and the guards of `Update`, `Logout` and `RefreshToken`.

A refresh session id is in one of three states:

- LIVE: it holds the user id.
- ROTATED: a successful refresh has overwritten it with the successor refresh id, as a
  tripwire that lasts 7 days.
- ABSENT.

`Refresh` tells ROTATED from LIVE by the stored value's length (36 or more). A LIVE value
is `strconv.Itoa` of an int64 and has at most 20 characters. On ROTATED, `Refresh`
deletes both the presented id and its successor and reports the replay. On LIVE, it
issues a new pair and sets the tripwire.

Modules, one per file:

- `Wrappers`: Option and Result.
- `Errors`: every error value the code can return, as one datatype.
- `Decimal`:
  - `strconv.Itoa`;
  - `strconv.ParseUint(s, 10, 64)`, with its left-to-right syntax and range errors;
  - Go's int64/uint64 conversions, which wrap around.
- `Strings`: `strings.Split` and `strings.Join`.
- `Jwt`: jwt-go's `Parse` over an opaque codec:
  - `decode` stands for the wire format;
  - a keyfunc error keeps its kind (jwt-go wraps it in a ValidationError whose message is the keyfunc's);
  - expiry follows `VerifyExpiresAt`;
  - the signature check is the comparison of the signing key with the key the keyfunc
    returns.
- `KeyValue`:
  - Redis GET, SET with a TTL, and DEL against an explicit clock;
  - a fault script that decides which commands fail to reach the server;
  - the class `SessionStore`, whose methods update its fields in place.
- `Token`: the pure half of `authorization/token.go`.
- `Session`: the store-touching half of `authorization/redis.go` and `authorization/token.go`.
- `UserResolvers`: the modelled parts of `user/resolvers.go`.

The Redis commands GET, SET and DEL are the methods of the class `SessionStore`. The
operations built on them (`FetchAuth`, `CreateRedisAuth`, `DeleteAuthFromRedis`,
`CreateToken`, `Refresh`, `Update`, `Logout`, `RefreshToken`) are module-level methods that
take a `client: SessionStore` and declare `modifies client`. Each such method is proved equal
to a specification function over store values, and the properties are lemmas about those
functions.

Code paths that panic in Go are modelled as the error `NilDereference`. There are two:

- `Refresh` reads `ts.RefreshUuid` at line 118 before it checks `createErr` at line 124,
  so it panics when `CreateToken` fails.
- `Update` and `Logout` dereference the nil details that `ExtractTokenMetadata` returns
  (with a nil error) for a verified token that has no `access_uuid`.

Two further behaviours of the code are kept as written:

- A failed second store write in `createRedisAuth` leaves the first write in place. It is
  not rolled back.
- Token errors are jwt-go's combined validation error, with an "expired" flag and a
  "signature invalid" flag. They are not separate error kinds.

## Model

| member | source | states |
|---|---|---|
| Decimal.Uint64FromInt64 | authorization/token.go:67 | `uint64(i)` agrees with `i` modulo 2^64 and is below 2^63 exactly when `i` is non-negative |
| Decimal.Itoa | authorization/redis.go:33 | `strconv.Itoa` yields a leading minus exactly for a negative number, followed by decimal digits without a leading zero |
| Decimal.Int64FromUint64 | authorization/redis.go:33 | `int(u)` wraps back to `u` under `uint64(·)`; it is non-negative exactly when `u < 2^63`, and then equals `u` |
| Decimal.Scan | authorization/redis.go:22 | a syntax error comes with value 0; any other error is the range error with value 2^64-1 |
| Decimal.ParseUint | authorization/redis.go:22 | a syntax error yields 0, and the only other error is the range error with 2^64-1 |
| Decimal.ParseItoa | authorization/redis.go:22 | `ParseUint(Itoa(i))` gives back `i` on the uint64 range; a negative `i` is a syntax error, a larger one a range error |
| Decimal.ParseNonNumeric | authorization/redis.go:22 | a value with a non-digit among its first 20 characters parses to 0 with a syntax error |
| Decimal.ItoaInt64Length | authorization/redis.go:33 | the text of any int64 has at most 20 characters |
| Strings.Split | authorization/token.go:82 | one more piece than there are separators, and no piece contains the separator |
| Strings.Join | user/resolvers.go:196 | the join of no parts is empty; otherwise it starts with the first part and ends with the last |
| Strings.JoinSplit | authorization/token.go:82-85 | joining the pieces of a split with the separator gives back the original string |
| Strings.SplitJoin | user/resolvers.go:196 | splitting a join gives back the parts, when no part contains the separator |
| Jwt.Parse | authorization/token.go:93-98 | succeeds exactly when the text decodes, the keyfunc hands out the token's own signing key, and the token is unexpired; an undecodable text is `Malformed`; a keyfunc error keeps its kind |
| Jwt.ParseSigned | authorization/token.go:93-98 | a token signed through a round-tripping codec parses back to itself under its own key before it expires |
| KeyValue.SessionStore.Get | authorization/redis.go:16 | GET returns the live value, `redis.Nil` for an absent or expired key, and a connection error when its fault slot is set; the data never changes |
| KeyValue.SessionStore.Set | authorization/redis.go:33 | SET replaces the value and deadline; a ttl of 0 or below keeps the key forever; a faulted SET writes nothing |
| KeyValue.SessionStore.Del | authorization/redis.go:47 | DEL removes the key and counts it only if it was live |
| Token.GetAuthToken | authorization/token.go:76-89 | a header with exactly one space yields the text after it, which has no space; any other header, the empty one included, yields "" |
| Token.VerifyToken | authorization/token.go:91-105 | a returned token is HMAC-signed, with the access secret, unexpired, and is what the text decodes to; a non-HMAC method is `unexpected signing method`; a wrong key is a signature-invalid error |
| Token.TokenValid | authorization/token.go:107-118 | no error exactly when the text decodes to an HMAC token that is signed with the access secret and unexpired; an undecodable text is `Malformed` |
| Token.AccessClaims | authorization/token.go:45-49 | the access claims name the access id and no refresh id, give back a non-negative user id through `ParseUint(Sprintf("%.f", ·))`, and pass the expiry check exactly until `AtExpires` |
| Token.RefreshClaims | authorization/token.go:56-59 | the refresh claims name the refresh id and no access id, give back a non-negative user id, and pass the expiry check exactly until `RtExpires` |
| Token.HmacKeyfunc | authorization/token.go:93-98 | the keyfunc hands out the secret for every HMAC-signed token and refuses every other method as `unexpected signing method` |
| Token.FormatClaim | authorization/token.go:135 | `Sprintf("%.f", ·)` of a number parses back to that number on the uint64 range (a syntax error below, a range error above); anything else prints with a non-digit first character |
| Token.UserIdClaim | authorization/token.go:135-138 | `ParseUint(Sprintf("%.f", user_id))` succeeds exactly on a numeric claim in the uint64 range, and then yields that number |
| Token.ExtractTokenMetadata | authorization/token.go:120-147 | a VerifyToken error is passed on; a verified token without a string `access_uuid` gives no details and no error; with one, an unusable `user_id` is its parse error and a usable one gives the details `(access_uuid, user_id)`; so it succeeds exactly when the token verifies and either lacks a string `access_uuid` or has a usable `user_id` |
| Token.AccessTokenMetadata | authorization/token.go:120-144 | an access token from CreateToken yields its session id and user id until it expires |
| Token.AccessTokenExpires | authorization/token.go:107-118 | once its expiry has passed, an access token is refused as expired and as nothing else |
| Token.RefreshTokenIsNoAccessToken | authorization/token.go:91-98 | with distinct secrets, a refresh token never verifies as an access token |
| Token.RefreshTokenAsAccessTokenWithSharedSecret | authorization/token.go:129-133 | with equal secrets, a refresh token verifies as an access token and yields neither details nor an error |
| Session.StoredUserId | authorization/redis.go:33 | the stored text of user `u` is shorter than 36 characters and parses back to `u` when `u < 2^63`, and to a syntax error otherwise |
| Session.FetchAuth | authorization/redis.go:15-25 | the method computes what FetchAuthSpec states: a GET of the access id, its value parsed with the parse error dropped |
| Session.FetchAuthAbsent | authorization/redis.go:16-20 | an absent or expired session yields user id 0 and an error, and the data is unchanged |
| Session.FetchAuthOfStoredId | authorization/redis.go:22-24 | a session stored for user `u` resolves to `u` if `u < 2^63`, and otherwise to 0 without an error |
| Session.FetchAuthNonNumeric | authorization/redis.go:22 | a non-numeric stored value resolves to user 0 with no error |
| Session.CreateRedisAuth | authorization/redis.go:28-43 | the method performs the two SETs of CreateRedisAuthSpec, stopping at the first failure |
| Session.CreateRedisAuthEffect | authorization/redis.go:28-43 | on success both ids hold the user id with TTLs `AtExpires-now` and `RtExpires-now`, and nothing else changed; after a failure, at most the access id was written; a failed first write writes nothing |
| Session.DeleteAuthFromRedis | authorization/redis.go:46-52 | the method performs the DEL of DeleteAuthSpec and reports 0 with the error on failure |
| Session.DeleteIdempotent | authorization/redis.go:46-52 | a delete reports 1 for a live key and 0 for an absent one, and removes the key; a second delete reports 0 with no error and changes nothing |
| Session.CreateToken | authorization/token.go:35-74 | the method signs both tokens and registers both sessions as CreateTokenSpec states |
| Session.CreateTokenIssues | authorization/token.go:35-74 | expiries are now+900 and now+604800 (access strictly first); the details carry the drawn ids and the two signed tokens with the stated claims and secrets; the store gains exactly the two sessions; a failure to sign either token is `SigningFailed` and writes nothing; with both signed, a failed first or second SET is `StoreUnavailable` |
| Session.IssueThenResolve | authorization/redis.go:15-25 | before it expires, the access token from CreateToken resolves through ExtractTokenMetadata and FetchAuth to the user it was issued for |
| Session.Refresh | authorization/redis.go:55-142 | the method walks the branches of RefreshSpec: parse, read the claims, GET, replay deletes, or CreateToken, tripwire SET and re-registration |
| Session.LiveAndRotatedApart | authorization/redis.go:93-94 | a stored user id is always shorter than 36 characters, and a successor UUID never is |
| Session.RefreshRejectsEarly | authorization/redis.go:56-84 | an invalid token, a non-HMAC method or an unusable `user_id` fails and leaves the store, fault script included, untouched; a missing `refresh_uuid` gives no tokens and no error |
| Session.RefreshUnknownSession | authorization/redis.go:86-91 | an absent or expired refresh id fails (`redis.Nil`, or a connection error) and leaves the data unchanged |
| Session.RefreshReplay | authorization/redis.go:93-108 | a ROTATED id never yields tokens; deletion stops at the first failed command; with no failures, both the id and its successor are gone and the error is the replay error |
| Session.RefreshCreateFailurePanics | authorization/redis.go:114-126 | any CreateToken failure while rotating a LIVE id is a nil dereference; the store is as CreateToken left it, untouched after a signing failure of either token |
| Session.RefreshRotates | authorization/redis.go:114-137 | a successful rotation leaves the old id naming the new refresh id for 7 days, and both new ids holding the user id, with nothing else changed; it returns the newly signed pair |
| Session.RefreshRotationFailures | authorization/redis.go:114-137 | rotating a LIVE id fails only with a store error or the nil dereference; with no store failure and working signing, it succeeds |
| Session.IssuedRefreshPresents | authorization/token.go:56-61 | a refresh token from CreateToken verifies under the refresh secret and carries its refresh id and user id until it expires |
| Session.RotationIsSingleUse | authorization/redis.go:93-137 | after a successful refresh, the same token presented again within 7 days is a replay; the replay removes the successor, whose token then finds no session |
| Session.RefreshErrors | authorization/redis.go:55-142 | every error Refresh reports comes from the token, the user id, the store, the replay, or the nil dereference |
| UserResolvers.Fragment | user/resolvers.go:192 | a fragment is the column, `='`, the value verbatim, and a closing quote |
| UserResolvers.PresentColumns | user/resolvers.go:190-191 | at most as many columns as given, each one both given and an argument |
| UserResolvers.BuildSetClause | user/resolvers.go:181-196 | the loop yields the fragments of the present columns, in column order, joined with "," |
| UserResolvers.FragmentsOfPresentColumns | user/resolvers.go:188-194 | there is one fragment per present column, in the same order, each `column='value'`; a column is present exactly when it is an argument |
| UserResolvers.PresentColumnsInOrder | user/resolvers.go:181-194 | the present columns are those of first_name, last_name, phone, email that are arguments, in that order |
| UserResolvers.SetClauseFragments | user/resolvers.go:188-194 | the fragment count equals the number of present columns and is at most 4, and each fragment is `column='value'` |
| UserResolvers.SetClauseBoundaries | user/resolvers.go:196-197 | the clause is empty exactly when no column is an argument, and never starts or ends with "," |
| UserResolvers.SetClauseSplits | user/resolvers.go:196 | when no value contains a comma, the clause splits on "," back into its fragments |
| UserResolvers.Update | user/resolvers.go:168-204 | the method runs the guards and the clause builder as UpdateSpec states |
| UserResolvers.UpdateGuards | user/resolvers.go:169-179 | the statement is built only when the token yields details and their access id resolves, and it is bound to the resolved user id; a token error is "auth required" and a store miss is "undefined user_id"; the data never changes |
| UserResolvers.Logout | user/resolvers.go:206-221 | the method runs the guard and the delete as LogoutSpec states |
| UserResolvers.LogoutRevokes | user/resolvers.go:206-220 | a token error is passed on untouched; a verified token without details is the nil-dereference panic and changes nothing; with session details, Logout fails exactly when the store does, and reports 1 for a live session and 0 for a gone one, removing the access id |
| UserResolvers.RefreshToken | user/resolvers.go:223-235 | the method runs the empty-token guard and Refresh as RefreshTokenSpec states |
| UserResolvers.RefreshTokenGuard | user/resolvers.go:223-235 | an empty token is "refresh token required" and issues no store command; otherwise the result fails exactly when Refresh does, and a nil map reads as two empty tokens |
| UserResolvers.IssueUpdateLogout | user/resolvers.go:168-220 | a freshly issued access token authorises an update bound to its user; logging out with it removes one session; after that, Update with the same token is "undefined user_id" |

## Left out

- I/O and the environment are parameters:
  - the clock is `now`, in Unix seconds;
  - the two `uuid.New()` draws are the `Uuids` argument;
  - `ACCESS_SECRET` and `REFRESH_SECRET` are the `Secrets` argument;
  - whether each Redis command reaches the server is the store's fault script.
- The properties of the UUID draws (36 characters, distinct, not already keys) are not a
  precondition of any operation. They appear only as `WellDrawn`/`FreshIn` hypotheses of
  the lemmas that need them.
- Session.CreateToken: reads the clock once, in whole seconds. The source truncates the
  expiries to whole seconds with `.Unix()` (token.go:37, token.go:40) and computes the
  TTLs against a later `time.Now()` (redis.go:31-38), so its TTLs can be up to about a
  second shorter than the model's 900 and 604800; the keys' deadlines, about `AtExpires`
  and `RtExpires`, agree with the model's `now + 900` and `now + 604800`.
- Session.CreateToken: `now + 900` and `now + 604800` are unbounded integers, so int64
  overflow of the expiry is not modelled.
- Jwt.Parse: HMAC and the JSON/base64 wire format are abstracted. A signature is valid
  when the signing key equals the key the keyfunc returns. Only `exp` is validated; the
  `iat` and `nbf` checks of jwt-go are not modelled (CreateToken never sets those claims).
- Token.UserIdClaim: JSON numbers are exact integers. jwt-go decodes them as float64,
  which loses precision above 2^53.
- The unreachable branches are not modelled, because jwt.Parse returns an error for every
  invalid token and a failed GET has already returned:
  - redis.go:67-69, "token is not valid";
  - redis.go:110-112, "refresh token is expired";
  - redis.go:141, "unexpected token";
  - token.go:146.
- UserResolvers.Update: the statement and its bound user id are the result. Executing
  it, and scanning the returned id, are database calls. With no column present, the
  statement reads `UPDATE users SET  WHERE id=$1 RETURNING id`, which the database
  rejects; that error, the silent scan and the resulting `{"id": 0}` are not modelled.
- Values are pasted into the SET clause without escaping. The model keeps this behaviour,
  but it does not model the SQL that a quote inside a value produces.
- The `User`, `AllUsers`, `Login` and `Create` resolvers are not modelled. They are SQL
  queries and bcrypt calls; the token issuance they trigger is `CreateToken`.
- The GraphQL schema, HTTP routing, the middleware that stores `GetAuthToken`'s result
  in the request context, and configuration loading are not modelled. The resolver
  argument type assertions (`.(string)`) are taken to succeed.
- Concurrency is not modelled. Two simultaneous refreshes of one token can both read LIVE
  before either sets the tripwire; the model runs commands one at a time.
- A failed store command is one that never reached the server. A command the server
  applied but whose reply was lost (a timeout or read error in go-redis) is not modelled.
  The following hold only under this assumption: KeyValue.SessionStore.Set ("a faulted
  SET writes nothing"), Session.CreateRedisAuthEffect ("after a failure, at most the
  access id was written"), Session.RefreshReplay (its three possible outcomes for the
  data) and UserResolvers.LogoutRevokes (a failed logout leaves the data unchanged).
- Session.Refresh: the ROTATED test counts characters, where `len(value)` at redis.go:94
  counts bytes. The two differ only for a non-ASCII value that some other client wrote;
  this code only stores ASCII user ids and UUIDs.
- Redis's own eviction is not modelled as a process. An expired key is invisible to
  reads and is removed by DEL or overwritten by SET.
