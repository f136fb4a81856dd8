# funny-project-be core, modelled in Dafny

funny-project-be is a Go (beego) backend where users share video links. It
has six parts:

- A Google sign-in (`Login`) that issues HS512 access tokens.
- A bearer-token filter (`VerifyToken`) in front of every REST route except
  the login route.
- REST handlers that show, create and list videos and show the current user.
- A WebSocket hub. Newly authenticated connections enter a bounded intake
  channel (`subscribe`, capacity 100). A goroutine (`handleScription`) moves
  them into an insertion-ordered registry (`subscribers`). Each new video is
  broadcast to every registered connection except its creator's.
- The response helpers (`SetError`, `SetValidationErrors`).
- The status codes. The HTTP status is the code divided by 1000.

The model has one module per Go file, plus helpers:

- `Status`: `infra/status/status.go`.
- `BaseController`: the `Response` class and its two setters.
- `Authn`: the filter. Its decision is the pure function `Decide`, and the
  method `VerifyToken` writes the 401 reply or the context data into a
  `FilterContext` object.
- `VideoController`:
  - the `Hub` class: its `queue` and `registry` fields are `seq<Subscriber>`;
  - `Fanout`: the writes of one broadcast;
  - the handlers `GetVideo`, `CreateVideo`, `ListVideos` and `JoinWebSocket`.
- `UserController`: `Login`, `GetUser` and `NewUserFromEntity`.
- `Entity`: the `domain/entity` records.
- `Errors`: Go error values. The gorm sentinel `ErrRecordNotFound` is
  distinguished from every other error.
- `Strconv`: the Go standard-library pieces the core depends on. These are:
  - `strconv.Itoa`, `strconv.Atoi` and `strconv.ParseUint(s, 10, 64)`;
  - the 64-bit `int`/`uint` conversions, which wrap around.
- `Wrappers`: `Option` and `Result`.

The REST handlers are methods that only allocate their own `Response`. Each
returns what it serves: the HTTP status, the code and message, and the
payload. `JoinWebSocket` is the exception. It serves nothing once the
connection is upgraded: it changes the `Hub` (it may enqueue a subscriber)
and returns only whether it closed the connection. The repositories, the
validator, JSON decoding, the OAuth2 client, the JWT library and the network
are parameters. Most of them are functions of the arguments the handler
passes: `get`, `getUser`, `add`, `marshal`, `send`, `validate`, `exchange`,
`fetch`, `decode`, `sign`, `getRange` and `isValidJWT`. A few are fixed
outcomes, each for its own reason:

- `request` (`CreateVideo`, `Login`) and `form` (`ListVideos`) are the decoded
  body or query. Their input is the HTTP request, which is not modelled.
- `firstMessage` (`JoinWebSocket`) is the first `ReadMessage`, which takes no
  argument.
- `count` (`ListVideos`) stands for `VRepo.Count`, which takes no argument.
- `lookup` and `reread` (`Login`) are the two answers `GetOneByEmail` gives
  for the same e-mail, before and after the `Add`. A single function of the
  e-mail would force them to be equal.
- `addError` (`Login`) stands for that `Add`, of which only the error is
  observed: `Login` re-reads the user instead of using the record `Add`
  filled in.

Two handlers also return a trace of some of their calls, in order:

- `CreateVideo` records the user lookup, the `Add` and the broadcast. Its
  sends appear separately, in `writes`.
- `Login` records the code exchange, the profile fetch, the e-mail lookups,
  the `Add` and the signing.

Neither trace records the `validate`, `decode` or `marshal` calls.
`GetVideo`, `ListVideos`, `GetUser` and `JoinWebSocket` return no trace.

Some facts about the code that the model follows:

- The filter exempts only URLs that start with `/funny-project/v1/rpc/auth/login`
  (`infra/beego/plugin/authn/authn.go:21`, `Authn.Decide`).
  `app/api/v1/router/router.go` registers no WebSocket route.
- `sub` is parsed with the signed `strconv.Atoi` and then converted with
  `uint(...)`, which wraps negative values (`Strconv.UintOf`). The filter
  does this at `infra/beego/plugin/authn/authn.go:55,62`, and `JoinWebSocket`
  does it at `app/api/v1/controller/video_controller.go:296,301`.
- `Login` never sets `JWTClaim.Email`
  (`app/api/v1/controller/user_controller.go:188-194`). So a token it issues
  reaches the filter with no email claim (`UserController.LoginTokenAuthenticates`).

## Model

| member | source | states |
|---|---|---|
| Status.HttpStatus | app/api/v1/controller/video_controller.go:92 | `resp.Code / 1000`, as every handler sets its status (also video_controller.go:139,214 and user_controller.go:93,221), with Go's truncation toward zero: for a non-negative code the status is the number of whole thousands in it, and for a negative code it is minus the whole thousands in its magnitude |
| Status.HttpStatusOfCodes | infra/status/status.go:4-41 | OK, Created, BadRequest, Unauthorized, Forbidden, NotFound, Conflict and InternalServerError divided by 1000 give 200, 201, 400, 401, 403, 404, 409 and 500 |
| Status.CodesAreThousands | infra/status/status.go:4-41 | every status constant is an exact multiple of 1000, so code/1000*1000 gives the code back |
| Status.CodesDistinct | infra/status/status.go:4-41 | the constants are pairwise distinct, and so are their HTTP statuses |
| Status.SuccessBelowErrors | infra/status/status.go:4-41 | OK and Created are below 400000 and every other constant is at least 400000, which is exactly the HTTP status being at least 400 |
| BaseController.Response.SetError | app/api/v1/controller/base_controller.go:32-34 | the message becomes the error's text, and the code is unchanged |
| BaseController.Response.SetValidationErrors | app/api/v1/controller/base_controller.go:37-41 | the message becomes the old message followed by "Key:Message;" for each error in list order; the code is unchanged |
| BaseController.ValidationTextAppend | app/api/v1/controller/base_controller.go:38-40 | the text for a concatenation of error lists is the text of the first list followed by that of the second, so an empty list adds nothing |
| BaseController.ValidationTextAt | app/api/v1/controller/base_controller.go:38-40 | the k-th error's entry sits between the texts of the errors before it and after it |
| BaseController.ValidationTextLength | app/api/v1/controller/base_controller.go:39 | the appended length is the sum of len(Key)+len(Message)+2 over the errors |
| Strconv.UintOf | infra/beego/plugin/authn/authn.go:62 | uint(x) on 64 bits: non-negative ints are unchanged, and negative ones wrap to x + 2^64 |
| Strconv.IntOf | app/api/v1/controller/user_controller.go:192 | int(u) on 64 bits: values below 2^63 are unchanged, and larger ones become negative |
| Strconv.Itoa | app/api/v1/controller/user_controller.go:192 | the text is non-empty; it is all decimal digits exactly when the number is non-negative, and otherwise a minus sign followed by digits; there is no leading zero, and no "-0" |
| Strconv.Atoi | infra/beego/plugin/authn/authn.go:55 | the empty string is an error; an accepted string is an optional sign followed by at least one digit and nothing else; a value parsed after "-" is at most zero and any other is at least zero |
| Strconv.ParseUint | app/api/v1/controller/video_controller.go:97 | a string is accepted exactly when it is non-empty, all digits (so no sign) and denotes a value below 2^64, and the result is that value |
| Strconv.DecimalRoundTrip | app/api/v1/controller/user_controller.go:192 | the decimal digits of a natural number read back as that number |
| Strconv.AtoiItoa | infra/beego/plugin/authn/authn.go:55 | Atoi parses Itoa's output of every 64-bit int back to that int |
| Strconv.ParseUintDecimal | app/api/v1/controller/video_controller.go:97 | ParseUint(s, 10, 64) accepts the decimal form of every 64-bit id and returns that id |
| Strconv.UintThroughDecimal | app/api/v1/controller/user_controller.go:192 | uint(Atoi(Itoa(int(u)))) == u for every 64-bit unsigned u |
| Strconv.UintOfIntOf | app/api/v1/controller/user_controller.go:192 | uint(int(u)) == u on 64 bits |
| Authn.SplitN2 | infra/beego/plugin/authn/authn.go:27 | SplitN(s, " ", 2) gives one part, s itself, exactly when s has no space; otherwise two parts that rebuild s around its first space, the first holding no space |
| Authn.KeyFunc | infra/beego/plugin/authn/authn.go:35-40 | the key function yields a key exactly for HMAC methods, and that key is the shared secret |
| Authn.Parse | infra/beego/plugin/authn/authn.go:34-40 | a token parses only if it names an HMAC method, and then it is what signature verification with the shared secret returns |
| Authn.Decide | infra/beego/plugin/authn/authn.go:19-61 | a request is exempt exactly when its URL starts with the login route; an authenticated request has a "Bearer " header whose remainder parses |
| Authn.BearerSplit | infra/beego/plugin/authn/authn.go:27-28 | SplitN(header, " ", 2) gives two parts, the first being "Bearer", exactly when the header starts with "Bearer "; the second part is then everything after that first space |
| Authn.HmacOnly | infra/beego/plugin/authn/authn.go:35-40 | only HMAC tokens reach the signature check, always with the shared secret; any other or unknown method is a parse error |
| Authn.RejectedWithoutBearer | infra/beego/plugin/authn/authn.go:27-32 | outside the login route, a header not starting with "Bearer " is rejected |
| Authn.TokenAfterFirstSpace | infra/beego/plugin/authn/authn.go:27-34 | the token checked is exactly the text after "Bearer ", even when that text holds more spaces |
| Authn.SubjectUid | infra/beego/plugin/authn/authn.go:55-62 | `uint(strconv.Atoi(claims["sub"]))`, also used at video_controller.go:296,301: a uid exists exactly when sub parses as an int, and reading the uid back as an int gives the parsed value |
| Authn.TokenVerdict | infra/beego/plugin/authn/authn.go:41-61 | a token is never exempt; an authenticated verdict needs a parsed, valid token with map claims, and carries uint(sub) and the email claim |
| Authn.TokenChecks | infra/beego/plugin/authn/authn.go:41-61 | a parsed token is accepted exactly when it parsed without error, has map claims, is valid and has an integer sub; the verdict then carries uint(sub) and the email claim |
| Authn.AuthenticatedOnlyWhen | infra/beego/plugin/authn/authn.go:19-61 | the whole chain a request must pass to be authenticated: not the login route, a "Bearer " header, an HMAC method, a verified valid token with map claims and an integer sub |
| Authn.SessionContext | infra/beego/plugin/authn/authn.go:65-67 | the stored context answers ContextUID and ContextEmail with the same uid and email as the request data, and holds nothing under ContextCtx |
| Authn.FilterContext.WriteUnauthorized | infra/beego/plugin/authn/authn.go:29-30 | writes status 401 and appends "401 Unauthorized\n" to the body, leaving the request data alone |
| Authn.VerifyToken | infra/beego/plugin/authn/authn.go:19-70 | an exempt request is left untouched. A rejected one gets 401 and the body, with no context data set. An authenticated one gets ContextUID, ContextEmail and ContextCtx set to the same uid and email, and nothing written |
| VideoController.NewVideoFromEntity | app/api/v1/controller/video_controller.go:47-60 | the result is nil exactly for a nil record, and otherwise its fields give back the record |
| VideoController.NewVideoFromEntityCopies | app/api/v1/controller/video_controller.go:47-60 | nil maps to nil, and otherwise all six fields are copied unchanged |
| VideoController.NewVideoFromEntityRoundTrip | app/api/v1/controller/video_controller.go:47-60 | the mapping loses nothing: a Video determines the record it came from, and every Video comes from one |
| VideoController.Fanout | app/api/v1/controller/video_controller.go:312-321 | a broadcast makes no more writes than there are registry entries (FanoutInOrder adds that no entry is written twice), every write carries the one payload, and nothing is written when no entry has another UID and a non-nil Conn |
| VideoController.Receives | app/api/v1/controller/video_controller.go:313-317 | the broadcast's skip condition: an entry receives exactly when its UID is not the creator's and its Conn is non-nil. That receivers are written to is proved by FanoutSound and FanoutComplete |
| VideoController.FanoutSound | app/api/v1/controller/video_controller.go:312-321 | every write goes to a registry entry whose UID differs from the creator's and whose Conn is non-nil, on that entry's Conn, with the one serialised payload, and records the write's outcome |
| VideoController.FanoutInOrder | app/api/v1/controller/video_controller.go:312 | writes follow registry order front to back, so no entry is written twice |
| VideoController.FanoutComplete | app/api/v1/controller/video_controller.go:312-321 | every entry with another UID and a non-nil Conn is written to, whether earlier writes failed or not |
| VideoController.FanoutAppend | app/api/v1/controller/video_controller.go:312-329 | a subscriber appended to the registry is written after everyone before it, if at all, and the earlier writes are unchanged |
| VideoController.TwoSubscribersScenario | app/api/v1/controller/video_controller.go:312-321 | with users 1 and 2 registered, a video from user 1 is written to user 2 alone, once |
| VideoController.Hub.constructor | app/api/v1/controller/video_controller.go:68-72 | the channel and the registry start empty |
| VideoController.Hub.Submit | app/api/v1/controller/video_controller.go:301 | a send on the 100-slot channel completes only when there is room, and appends the subscriber to the queue, keeping the queue at most 100 long |
| VideoController.Hub.DrainOne | app/api/v1/controller/video_controller.go:326-331 | removes the oldest queued subscriber and appends it to the back of the registry; earlier entries are unchanged and registry followed by queue stays the submission order |
| VideoController.Hub.DrainPending | app/api/v1/controller/video_controller.go:326-331 | draining until the channel is empty appends the whole queue to the registry in queue order |
| VideoController.Hub.Broadcast | app/api/v1/controller/video_controller.go:305-323 | a failed serialisation writes nothing; otherwise the writes are exactly Fanout over the registry, which the broadcast leaves unchanged |
| VideoController.JoinUid | app/api/v1/controller/video_controller.go:286-300 | a uid is admitted only when the first read succeeded and IsValidJWT accepted the message, and it is uint(Atoi(sub)) of those claims |
| VideoController.JoinAdmission | app/api/v1/controller/video_controller.go:286-300 | a connection is admitted exactly when the first read succeeds, the token is valid and sub parses as an integer, under uid uint(Atoi(sub)) |
| VideoController.JoinWebSocket | app/api/v1/controller/video_controller.go:266-302 | admitted connections enqueue Subscriber{uid, ip, ws}. Every other connection is closed, with nothing enqueued or recorded. The registry is never touched |
| VideoController.GetVideo | app/api/v1/controller/video_controller.go:86-118 | an unparsable id gives 400 "id is invalid"; record-not-found gives 404 "video not found"; any other error gives 500 with no message; otherwise 200 with the mapped video, or with no video when the repository returns a nil record and no error. The HTTP status is always code/1000 |
| Entity.StoreVideo | app/api/v1/controller/video_controller.go:180 | a successful Add writes back exactly the generated ID and the two timestamps, and leaves URL, SharedBy and Description as given |
| VideoController.CreateVideo | app/api/v1/controller/video_controller.go:133-191 | bad JSON, validator errors, failed validation, user-lookup and Add failures each return at once with their codes. None of them broadcasts. After a successful Add the one stored record is both broadcast and served with Created. A failed serialisation writes nothing, and every write carries the one serialised payload |
| VideoController.Items | app/api/v1/controller/video_controller.go:258-262 | there are at most as many items as records, and none when every record is nil |
| VideoController.ItemsAppend | app/api/v1/controller/video_controller.go:258-262 | the items of two pages in a row are the first page's items followed by the second's |
| VideoController.ItemsSkipNil | app/api/v1/controller/video_controller.go:258-262 | a nil record adds no item and a non-nil record adds its Video at the end |
| VideoController.ItemsAllPresent | app/api/v1/controller/video_controller.go:258-262 | when no record is nil, the i-th item is the i-th record's Video |
| VideoController.ItemsFromRecords | app/api/v1/controller/video_controller.go:258-262 | every item is the Video of some non-nil record of the page |
| VideoController.ListVideos | app/api/v1/controller/video_controller.go:207-263 | form, validator, range and count failures each give their code and message, with zero total, page and limit and no items. Success echoes page and limit, returns Count's total, and builds the items from the page in order, skipping nil records |
| UserController.NewUserFromEntity | app/api/v1/controller/user_controller.go:45-57 | the result is nil exactly for a nil record, and otherwise its fields give back the record |
| UserController.NewUserFromEntityCopies | app/api/v1/controller/user_controller.go:45-57 | nil maps to nil, and otherwise ID, Name, Email, CreatedAt and UpdatedAt are copied unchanged |
| UserController.NewUserFromEntityRoundTrip | app/api/v1/controller/user_controller.go:45-57 | the mapping loses nothing: a User determines the record it came from |
| UserController.WholeSeconds | app/api/v1/controller/user_controller.go:187 | int64(d.Seconds()) is the whole seconds of d, truncated toward zero for both signs |
| UserController.AddInt64 | app/api/v1/controller/user_controller.go:187 | the int64 addition is exact when in range and wraps by 2^64 otherwise |
| UserController.LoginClaims | app/api/v1/controller/user_controller.go:187-194 | the claims carry no email and IssuedAt from the clock; without overflow ExpiresAt is the first clock reading plus the whole seconds of the lifetime, and never earlier for a non-negative lifetime |
| UserController.TokenSubjectRoundTrip | app/api/v1/controller/user_controller.go:192 | the filter's integer parse of the token subject gives back the user's ID, for every 64-bit ID |
| UserController.LoginTokenAuthenticates | app/api/v1/controller/user_controller.go:188-194 | a valid token carrying Login's claims authenticates exactly its user in the filter, with no email claim |
| UserController.TokenLifetime | app/api/v1/controller/user_controller.go:187-190 | with equal clock readings and no overflow, ExpiresAt is IssuedAt plus the lifetime in whole seconds |
| UserController.FindOrCreateAddsOnlyWhenMissing | app/api/v1/controller/user_controller.go:159-185 | A not-found lookup adds exactly one user, with the Google name and e-mail, and then re-reads it unless the Add failed. A found user is used as is. Any other lookup error fails with nothing added |
| UserController.GoogleSteps | app/api/v1/controller/user_controller.go:118-156 | the code exchange is always called first; the profile fetch is called only after a successful exchange, with its token; nothing else is called; the profile is the decoded one exactly when the exchange, the fetch and the decoding all succeed; otherwise the message is "exchange google token failed", "get google user failed" or "parse google user failed" followed by the failing step's error text |
| UserController.SignInWithGoogle | app/api/v1/controller/user_controller.go:118-156 | the profile and the calls are those of the Google stage as GoogleProfile and GoogleCalls define them; what that stage does is proved in GoogleSteps |
| UserController.FindOrCreateUser | app/api/v1/controller/user_controller.go:158-185 | the user and the repository calls are those of find-or-create: look up by e-mail, and add then re-read only on "record not found" |
| UserController.Login | app/api/v1/controller/user_controller.go:87-207 | Bad JSON or failed validation gives BadRequest with no call made; a validator error gives 500. A failed exchange or fetch gives Unauthorized with that step's message, with no repository call. Then comes find-or-create, and the user's claims are signed. Success serves the token with the Google name and picture, and the HTTP status is always code/1000 |
| UserController.GetUser | app/api/v1/controller/user_controller.go:216-241 | not found gives 404 "user not found", any other error 500 with the error text, and success code OK with the user's e-mail |
| UserController.GetUserWithMockRepository | app/api/v1/controller/user_controller_test.go:41-79 | the repository returning a user with e-mail test@example.com gives status 200 and that e-mail. The test reads `rr.Code` of a fresh recorder that GetUser never writes to, so it is 200 whatever happens; the lemma checks the status the handler itself sets, which is stronger |

## Left out

- The WebSocket upgrade, `ReadMessage`, `WriteMessage` and `Close` are not modelled. The first read's outcome is a parameter, and each write's outcome comes from a `send` function. Closing is reported as a boolean.
- Concurrency is not modelled. The `handleScription` goroutine, the blocking channel and the race between draining and broadcasting are modelled as one sequence of calls. A blocked send is a precondition (`Hub.Submit` needs room). A blocked receive is a precondition too (`Hub.DrainOne` needs a queued subscriber).
- `handleScription`'s printing of the list and all logging are not modelled. They affect no state.
- `authn.IsValidJWT` is not part of this model. `JoinWebSocket` takes it as an abstract function.
- `jwt.Parse` and the JWT library's signature and expiry checks are abstract. They are two functions in `JwtLibrary`: the method a token names, and the verification. Token signing in `Login` is an abstract `sign` function.
- JSON encoding and decoding, beego form parsing and the `valid` tag rules are abstract. Each is the outcome it produces or a function (`validate`, `marshal`, `decode`).
- The Google OAuth2 exchange and profile fetch are abstract functions. Each returns a success or an error.
- The gorm repositories are outcomes or functions following the `domain/repo` interfaces. Errors are either the "record not found" sentinel or any other error. Wrapped sentinels are not modelled.
- Type-assertion panics are not modelled. These are a non-string `sub`, and missing `ContextUID` or `ContextCtx` data. So is a nil user returned with a nil error. In `GetUser` (`URepo.Get`), in `CreateVideo` (`URepo.Get`) and in `Login` (`GetOneByEmail`) that would make the handler dereference nil. The user repositories are therefore modelled as always returning a user on success. `GetVideo` is different: a nil video with a nil error is modelled, and it is served as 200 with no video.
- The email claim is modelled as an optional string. A non-string `email` claim is not modelled.
- VideoController.CreateVideo: its contract does not say which registry entries the broadcast writes to, so that it stays a statement about its parameters alone and not about the hub's fields. `VideoController.Hub.Broadcast`, which it calls, states that the writes are exactly `Fanout` over the registry.
- `UserController.WholeSeconds` ignores the float64 rounding in `Duration.Seconds()`. From 2^24 seconds (about 194 days) on, when the sub-second part is within half a float64 step of a full second, `float64(sec) + float64(nsec)/1e9` rounds up to the next whole second before `int64(...)` truncates it. The model truncates the exact value.
- Time values are abstract. `time.Now()` is two parameters (`Clock`), one per reading. `time.Time` fields are only copied.
- The route table in `app/api/v1/router/router.go` is left out. It is beego wiring, used here only to cite the login route's path.
- `cmd/svc/main.go` is left out. It loads options, connects to the database and starts the server.
