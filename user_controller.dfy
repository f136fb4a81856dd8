/**
  The user handlers of app/api/v1/controller/user_controller.go: Login, which
  trades a Google authorisation code for the user's profile, finds or creates
  the user by e-mail and signs an access token whose subject is the user id,
  and GetUser, which serves the authenticated user's e-mail.
*/
module UserController {
  import opened Wrappers
  import opened Errors
  import opened Strconv
  import opened Status
  import opened BaseController
  import Entity
  import Authn

  /** The User a client receives. */
  datatype User = User(id: Uint, name: string, email: string, createdAt: Entity.Time, updatedAt: Entity.Time)

  /** NewUserFromEntity: nil for nil, otherwise the record's five fields. */
  function NewUserFromEntity(e: Option<Entity.User>): (u: Option<User>)
    ensures u.None? <==> e.None?
    ensures e.Some? ==> UserRecordOf(u.value) == e.value
  {
    match e
    case None => None
    case Some(r) => Some(User(r.id, r.name, r.email, r.createdAt, r.updatedAt))
  }

  /** nil maps to nil, and otherwise every field is copied unchanged. */
  lemma NewUserFromEntityCopies(e: Option<Entity.User>)
    ensures NewUserFromEntity(e).None? <==> e.None?
    ensures e.Some? ==>
      var u, r := NewUserFromEntity(e).value, e.value;
      u.id == r.id && u.name == r.name && u.email == r.email &&
      u.createdAt == r.createdAt && u.updatedAt == r.updatedAt
  {
  }

  /** The record a served User was made from. */
  function UserRecordOf(u: User): Entity.User
  {
    Entity.User(u.id, u.name, u.email, u.createdAt, u.updatedAt)
  }

  /** Nothing is lost in the mapping: the record can be read back from the User, and every User comes from one. */
  lemma NewUserFromEntityRoundTrip(r: Entity.User, u: User)
    ensures NewUserFromEntity(Some(r)) == Some(u) <==> UserRecordOf(u) == r
  {
  }

  // ---------------------------------------------------------------------------
  // Login
  // ---------------------------------------------------------------------------

  /** The decoded body of a login request. */
  datatype LoginRequest = LoginRequest(code: string, redirectURL: string)

  /** What Login serves: the HTTP status, then the JSON body. */
  datatype LoginReply = LoginReply(status: int, code: int, message: string, token: string, name: string, avatar: string)

  /** The profile Google returns. */
  datatype GoogleUser = GoogleUser(name: string, email: string, picture: string)

  /** The OAuth2 token the authorisation code is exchanged for, kept abstract. */
  datatype OAuthToken = OAuthToken(handle: nat)

  /** The outcome of fetching the profile URL with the OAuth2 client and reading the whole body. */
  datatype Fetched = GetFailed(err: Error) | ReadFailed(err: Error) | Contents(body: seq<bv8>)

  /** Login's JWTClaim: the custom email claim, then the standard iat, exp and sub claims. */
  datatype JwtClaim = JwtClaim(email: string, issuedAt: Int, expiresAt: Int, subject: string)

  /** The two time.Now().Unix() readings Login takes, for the expiry and then for the issue time. */
  datatype Clock = Clock(forExpiry: Int, forIssue: Int)

  /** The OAuth2, repository and signing calls Login makes, in order. */
  datatype LoginCall =
    | Exchange(code: string, redirectURL: string)
    | FetchProfile(token: OAuthToken)
    | LookupByEmail(email: string)
    | AddUser(record: Entity.User)
    | Sign(claims: JwtClaim, secret: string)

  /** A Login reply that failed with code and message: no token, no name, no avatar. */
  function LoginFailure(code: int, message: string): LoginReply
  {
    LoginReply(HttpStatus(code), code, message, "", "", "")
  }

  /** int64(d.Seconds()) for a time.Duration of d nanoseconds: the whole seconds, truncated toward zero. */
  function WholeSeconds(d: Int): (s: Int)
    ensures 0 <= d ==> 0 <= s * 1_000_000_000 <= d < (s + 1) * 1_000_000_000
    ensures d < 0 ==> (s - 1) * 1_000_000_000 < d <= s * 1_000_000_000 <= 0
  {
    if d >= 0 then d / 1_000_000_000 else -((-(d as int)) / 1_000_000_000)
  }

  /** int64 addition, which wraps around in two's complement. */
  function AddInt64(a: Int, b: Int): (r: Int)
    ensures -Pow63 <= a as int + b < Pow63 ==> r == a as int + b
    ensures a as int + b >= Pow63 ==> r == a as int + b - Pow64
    ensures a as int + b < -Pow63 ==> r == a as int + b + Pow64
  {
    var t := a as int + b;
    if t >= Pow63 then t - Pow64 else if t < -Pow63 then t + Pow64 else t
  }

  /** The claims Login signs for user u: no email, expiry lifetime after the first clock reading, subject Itoa(int(u.ID)). */
  function LoginClaims(u: Entity.User, clock: Clock, lifetime: Int): (c: JwtClaim)
    ensures c.email == "" && c.issuedAt == clock.forIssue
    ensures -Pow63 <= clock.forExpiry as int + WholeSeconds(lifetime) < Pow63 ==>
      c.expiresAt == clock.forExpiry as int + WholeSeconds(lifetime)
    ensures 0 <= lifetime && clock.forExpiry as int + WholeSeconds(lifetime) < Pow63 ==> clock.forExpiry <= c.expiresAt
  {
    JwtClaim("", clock.forIssue, AddInt64(clock.forExpiry, WholeSeconds(lifetime)), Itoa(IntOf(u.id)))
  }

  /**
    The subject Login writes is read back by the authentication filter as the
    same user id: uint(Atoi(Itoa(int(u.ID)))) == u.ID on every 64-bit id.
  */
  lemma TokenSubjectRoundTrip(u: Entity.User, clock: Clock, lifetime: Int)
    ensures Authn.SubjectUid(Authn.MapClaims(LoginClaims(u, clock, lifetime).subject, None)) == Some(u.id)
  {
    UintThroughDecimal(u.id);
  }

  /**
    A valid token carrying exactly Login's claims authenticates its user in
    the filter: the request is let through under u's id, with no email, as
    Login never sets the email claim.
  */
  lemma LoginTokenAuthenticates(u: Entity.User, clock: Clock, lifetime: Int)
    ensures LoginClaims(u, clock, lifetime).email == ""
    ensures Authn.TokenVerdict(Some(Authn.Token(Authn.Map(Authn.MapClaims(LoginClaims(u, clock, lifetime).subject, None)), true)))
      == Authn.Authenticated(u.id, None)
  {
    TokenSubjectRoundTrip(u, clock, lifetime);
  }

  /** When both clock readings agree and nothing overflows, the token lives exactly the whole seconds of lifetime. */
  lemma TokenLifetime(u: Entity.User, clock: Clock, lifetime: Int)
    requires clock.forExpiry == clock.forIssue
    requires -Pow63 <= clock.forExpiry as int + WholeSeconds(lifetime) < Pow63
    ensures LoginClaims(u, clock, lifetime).expiresAt - LoginClaims(u, clock, lifetime).issuedAt == WholeSeconds(lifetime)
    ensures 0 <= lifetime ==> LoginClaims(u, clock, lifetime).issuedAt <= LoginClaims(u, clock, lifetime).expiresAt
  {
  }

  /** The Google profile for req, or the message Login fails with (the steps' own messages, with the error's text). */
  function GoogleProfile(req: LoginRequest, exchange: (string, string) -> Result<OAuthToken, Error>,
                         fetch: OAuthToken -> Fetched, decode: seq<bv8> -> Result<GoogleUser, Error>): Result<GoogleUser, string>
  {
    match exchange(req.redirectURL, req.code)
    case Failure(e) => Failure("exchange google token failed " + e.Text())
    case Success(token) =>
      match fetch(token)
      case GetFailed(e) => Failure("get google user failed " + e.Text())
      case ReadFailed(e) => Failure("get google user failed " + e.Text())
      case Contents(body) =>
        match decode(body)
        case Failure(e) => Failure("parse google user failed " + e.Text())
        case Success(g) => Success(g)
  }

  /** The calls to Google for req: the code exchange, then the profile fetch if the exchange succeeded. */
  function GoogleCalls(req: LoginRequest, exchange: (string, string) -> Result<OAuthToken, Error>): seq<LoginCall>
  {
    [Exchange(req.code, req.redirectURL)] +
    match exchange(req.redirectURL, req.code)
    case Failure(_) => []
    case Success(token) => [FetchProfile(token)]
  }

  /**
    The Google stage of Login: the code exchange is always called first and
    the profile fetch only after it succeeded, no other collaborator is
    called, and the profile is the decoded one exactly when all three steps
    succeed; otherwise the message is the failing step's error text.
  */
  lemma GoogleSteps(req: LoginRequest, exchange: (string, string) -> Result<OAuthToken, Error>,
                    fetch: OAuthToken -> Fetched, decode: seq<bv8> -> Result<GoogleUser, Error>)
    ensures var calls := GoogleCalls(req, exchange);
      1 <= |calls| <= 2 && calls[0] == Exchange(req.code, req.redirectURL)
    ensures var calls, token := GoogleCalls(req, exchange), exchange(req.redirectURL, req.code);
      (|calls| == 2 <==> token.Success?) && (|calls| == 2 ==> calls[1] == FetchProfile(token.value))
    ensures forall k | 0 <= k < |GoogleCalls(req, exchange)| ::
      GoogleCalls(req, exchange)[k].Exchange? || GoogleCalls(req, exchange)[k].FetchProfile?
    ensures var profile, token := GoogleProfile(req, exchange, fetch, decode), exchange(req.redirectURL, req.code);
      profile.Success? <==>
        token.Success? && fetch(token.value).Contents? && decode(fetch(token.value).body).Success?
    ensures var profile, token := GoogleProfile(req, exchange, fetch, decode), exchange(req.redirectURL, req.code);
      && (profile.Success? ==> profile.value == decode(fetch(token.value).body).value)
      && (token.Failure? ==> profile == Failure("exchange google token failed " + token.error.Text()))
      && (token.Success? && !fetch(token.value).Contents? ==>
            profile == Failure("get google user failed " + fetch(token.value).err.Text()))
      && (token.Success? && fetch(token.value).Contents? && decode(fetch(token.value).body).Failure? ==>
            profile == Failure("parse google user failed " + decode(fetch(token.value).body).error.Text()))
  {
  }

  /** The request was decoded and passed validation, so Login goes on to Google. */
  predicate Accepted(request: Result<LoginRequest, Error>, validate: LoginRequest -> Validation)
  {
    request.Success? && validate(request.value) == Checked([])
  }

  /** The record Login adds for a Google user it has not seen: only the name and e-mail are set. */
  function NewUserRecord(g: GoogleUser): Entity.User
  {
    Entity.User(0, g.name, g.email, Entity.ZeroTime, Entity.ZeroTime)
  }

  /**
    The user Login signs a token for, given GetOneByEmail's first answer
    lookup, the error addError of the Add it makes when that answer is
    "record not found", and the answer reread of the lookup after the Add.
  */
  function FindOrCreate(lookup: Result<Entity.User, Error>, addError: Option<Error>,
                        reread: Result<Entity.User, Error>): Result<Entity.User, Error>
  {
    match lookup
    case Success(u) => Success(u)
    case Failure(Failed(t)) => Failure(Failed(t))
    case Failure(RecordNotFound) =>
      match addError
      case Some(e) => Failure(e)
      case None => reread
  }

  /** The repository calls FindOrCreate makes for Google user g, in order. */
  function RepositoryCalls(g: GoogleUser, lookup: Result<Entity.User, Error>, addError: Option<Error>): seq<LoginCall>
  {
    [LookupByEmail(g.email)] +
    if lookup != Failure(RecordNotFound) then []
    else [AddUser(NewUserRecord(g))] + (if addError.Some? then [] else [LookupByEmail(g.email)])
  }

  /**
    Find-or-create: a user is added exactly when the e-mail lookup reports
    "record not found", then once, with the Google name and e-mail, and is
    re-read by the same e-mail unless the Add failed; a found user is used
    as is, and any other lookup error fails with nothing added.
  */
  lemma FindOrCreateAddsOnlyWhenMissing(g: GoogleUser, lookup: Result<Entity.User, Error>, addError: Option<Error>,
                                        reread: Result<Entity.User, Error>)
    ensures forall k | 0 <= k < |RepositoryCalls(g, lookup, addError)| ::
      RepositoryCalls(g, lookup, addError)[k].AddUser? <==> k == 1 && lookup == Failure(RecordNotFound)
    ensures forall k | 0 <= k < |RepositoryCalls(g, lookup, addError)| && RepositoryCalls(g, lookup, addError)[k].AddUser? ::
      RepositoryCalls(g, lookup, addError)[k].record == Entity.User(0, g.name, g.email, Entity.ZeroTime, Entity.ZeroTime)
    ensures forall k | 0 <= k < |RepositoryCalls(g, lookup, addError)| && RepositoryCalls(g, lookup, addError)[k].LookupByEmail? ::
      RepositoryCalls(g, lookup, addError)[k].email == g.email
    ensures lookup.Success? ==> FindOrCreate(lookup, addError, reread) == lookup && |RepositoryCalls(g, lookup, addError)| == 1
    ensures lookup.Failure? && lookup.error != RecordNotFound ==>
      FindOrCreate(lookup, addError, reread) == lookup && |RepositoryCalls(g, lookup, addError)| == 1
    ensures lookup == Failure(RecordNotFound) ==>
      (addError.Some? ==> FindOrCreate(lookup, addError, reread) == Failure(addError.value) &&
                          |RepositoryCalls(g, lookup, addError)| == 2) &&
      (addError.None? ==> FindOrCreate(lookup, addError, reread) == reread &&
                          RepositoryCalls(g, lookup, addError)[2] == LookupByEmail(g.email))
  {
  }

  /**
    The end of a Login that resolved user u after the calls prior: the claims
    are signed with secret, and the reply carries the token and the Google
    profile's name and picture, or fails with the signer's error.
  */
  predicate Issued(reply: LoginReply, calls: seq<LoginCall>, prior: seq<LoginCall>, u: Entity.User, g: GoogleUser,
                   clock: Clock, lifetime: Int, secret: string, sign: (JwtClaim, string) -> Result<string, Error>)
  {
    var claims := LoginClaims(u, clock, lifetime);
    && calls == prior + [Sign(claims, secret)]
    && match sign(claims, secret)
       case Failure(e) => reply == LoginFailure(InternalServerError, e.Text())
       case Success(token) => reply == LoginReply(200, OK, "", token, g.name, g.picture)
  }

  /** Login's Google steps: exchange the code, fetch the profile with the token, read and decode it. */
  method SignInWithGoogle(req: LoginRequest, exchange: (string, string) -> Result<OAuthToken, Error>,
                          fetch: OAuthToken -> Fetched, decode: seq<bv8> -> Result<GoogleUser, Error>)
    returns (profile: Result<GoogleUser, string>, calls: seq<LoginCall>)
    ensures profile == GoogleProfile(req, exchange, fetch, decode)
    ensures calls == GoogleCalls(req, exchange)
  {
    calls := [Exchange(req.code, req.redirectURL)];
    var token := exchange(req.redirectURL, req.code);
    if token.Failure? {
      return Failure("exchange google token failed " + token.error.Text()), calls;
    }
    calls := calls + [FetchProfile(token.value)];
    var response := fetch(token.value);
    if response.GetFailed? {
      return Failure("get google user failed " + response.err.Text()), calls;
    }
    if response.ReadFailed? {
      return Failure("get google user failed " + response.err.Text()), calls;
    }
    var user := decode(response.body);
    if user.Failure? {
      return Failure("parse google user failed " + user.error.Text()), calls;
    }
    profile := Success(user.value);
  }

  /** Login's find-or-create by the Google user's e-mail. */
  method FindOrCreateUser(g: GoogleUser, lookup: Result<Entity.User, Error>, addError: Option<Error>,
                          reread: Result<Entity.User, Error>)
    returns (user: Result<Entity.User, Error>, calls: seq<LoginCall>)
    ensures user == FindOrCreate(lookup, addError, reread)
    ensures calls == RepositoryCalls(g, lookup, addError)
  {
    calls := [LookupByEmail(g.email)];
    user := lookup;
    if user.Failure? {
      if user.error == RecordNotFound {
        var record := Entity.User(0, "", g.email, Entity.ZeroTime, Entity.ZeroTime);
        record := record.(name := g.name);
        calls := calls + [AddUser(record)];
        if addError.Some? {
          return Failure(addError.value), calls;
        }
        calls := calls + [LookupByEmail(g.email)];
        user := reread;
      }
    }
  }

  /**
    Login. request is the decoded body and validate the validator; exchange,
    fetch and decode are the OAuth2 exchange, the profile fetch and the profile
    decoding; lookup and reread are GetOneByEmail's answers before and after
    the Add, whose error is addError; secret and sign are the access-token
    secret and the HS512 signer, and lifetime the token lifetime in nanoseconds.
  */
  method Login(request: Result<LoginRequest, Error>, validate: LoginRequest -> Validation,
               exchange: (string, string) -> Result<OAuthToken, Error>,
               fetch: OAuthToken -> Fetched, decode: seq<bv8> -> Result<GoogleUser, Error>,
               lookup: Result<Entity.User, Error>, addError: Option<Error>, reread: Result<Entity.User, Error>,
               clock: Clock, lifetime: Int, secret: string, sign: (JwtClaim, string) -> Result<string, Error>)
    returns (reply: LoginReply, calls: seq<LoginCall>)
    ensures reply.status == HttpStatus(reply.code)
    ensures request.Failure? ==> reply == LoginFailure(BadRequest, request.error.Text()) && calls == []
    ensures request.Success? ==>
      match validate(request.value)
      case ValidatorFailed(err) => reply == LoginFailure(InternalServerError, err.Text()) && calls == []
      case Checked(errs) => errs != [] ==> reply == LoginFailure(BadRequest, ValidationText(errs)) && calls == []
    ensures Accepted(request, validate) ==>
      match GoogleProfile(request.value, exchange, fetch, decode)
      case Failure(message) => reply == LoginFailure(Unauthorized, message) && calls == GoogleCalls(request.value, exchange)
      case Success(g) =>
        var prior := GoogleCalls(request.value, exchange) + RepositoryCalls(g, lookup, addError);
        match FindOrCreate(lookup, addError, reread)
        case Failure(e) => reply == LoginFailure(InternalServerError, e.Text()) && calls == prior
        case Success(u) => Issued(reply, calls, prior, u, g, clock, lifetime, secret, sign)
  {
    var resp := new Response(OK);
    var token, name, avatar := "", "", "";
    calls := [];
    HttpStatusOfCodes();
    if request.Failure? {
      resp.code := BadRequest;
      resp.SetError(request.error);
      reply := LoginReply(HttpStatus(resp.code), resp.code, resp.message, token, name, avatar);
      return;
    }
    var req := request.value;
    var validation := validate(req);
    if validation.ValidatorFailed? {
      resp.code := InternalServerError;
      resp.SetError(validation.err);
      reply := LoginReply(HttpStatus(resp.code), resp.code, resp.message, token, name, avatar);
      return;
    }
    if validation.errors != [] {
      resp.code := BadRequest;
      resp.SetValidationErrors(validation.errors);
      reply := LoginReply(HttpStatus(resp.code), resp.code, resp.message, token, name, avatar);
      return;
    }
    var google, googleCalls := SignInWithGoogle(req, exchange, fetch, decode);
    calls := calls + googleCalls;
    if google.Failure? {
      resp.code := Unauthorized;
      resp.message := google.error;
      reply := LoginReply(HttpStatus(resp.code), resp.code, resp.message, token, name, avatar);
      return;
    }
    var gUser := google.value;
    var user, repositoryCalls := FindOrCreateUser(gUser, lookup, addError, reread);
    calls := calls + repositoryCalls;
    if user.Failure? {
      resp.code := InternalServerError;
      resp.SetError(user.error);
      reply := LoginReply(HttpStatus(resp.code), resp.code, resp.message, token, name, avatar);
      return;
    }
    var claims := LoginClaims(user.value, clock, lifetime);
    calls := calls + [Sign(claims, secret)];
    var signed := sign(claims, secret);
    if signed.Failure? {
      resp.code := InternalServerError;
      resp.SetError(signed.error);
      reply := LoginReply(HttpStatus(resp.code), resp.code, resp.message, token, name, avatar);
      return;
    }
    token := signed.value;
    name := gUser.name;
    avatar := gUser.picture;
    reply := LoginReply(HttpStatus(resp.code), resp.code, resp.message, token, name, avatar);
  }

  // ---------------------------------------------------------------------------
  // GetUser
  // ---------------------------------------------------------------------------

  /** What GetUser serves: the HTTP status, then the JSON body. */
  datatype GetUserReply = GetUserReply(status: int, code: int, message: string, email: string)

  /** GetUser for the user uid the filter stored in the request; get is URepo.Get. */
  method GetUser(uid: Uint, get: Uint -> Result<Entity.User, Error>) returns (reply: GetUserReply)
    ensures reply.status == HttpStatus(reply.code)
    ensures match get(uid)
      case Failure(RecordNotFound) => reply == GetUserReply(404, NotFound, "user not found", "")
      case Failure(Failed(t)) => reply == GetUserReply(500, InternalServerError, t, "")
      case Success(u) => reply == GetUserReply(200, OK, "", u.email)
  {
    var resp := new Response(OK);
    var email := "";
    HttpStatusOfCodes();
    var user := get(uid);
    if user.Failure? {
      if user.error == RecordNotFound {
        resp.code := NotFound;
        resp.message := "user not found";
      } else {
        resp.code := InternalServerError;
        resp.SetError(user.error);
      }
    } else {
      email := user.value.email;
    }
    reply := GetUserReply(HttpStatus(resp.code), resp.code, resp.message, email);
  }

  /** The GetUser test: uid 1, a repository whose Get returns a user with e-mail test@example.com. */
  method GetUserWithMockRepository() returns (reply: GetUserReply)
    ensures reply.status == 200 && reply.email == "test@example.com"
  {
    var mock := (uid: Uint) => Success(Entity.User(0, "", "test@example.com", Entity.ZeroTime, Entity.ZeroTime));
    reply := GetUser(1, mock);
  }
}
