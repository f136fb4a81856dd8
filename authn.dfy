/**
  The bearer-token filter of infra/beego/plugin/authn: it lets the login route
  through untouched, rejects with 401 anything that is not "Bearer <jwt>" with
  an HMAC-signed, valid token whose `sub` is an integer, and otherwise stores
  the user's id and email in the request context.
*/
module Authn {
  import opened Wrappers
  import opened Errors
  import opened Strconv

  /** The login route: the namespaces "/funny-project", "/v1", "/rpc", "/auth" and the router "/login". */
  const LoginPath: string := "/funny-project/v1/rpc/auth/login"

  const UnauthorizedStatus: int := 401
  const UnauthorizedBody: string := "401 Unauthorized\n"

  /** The index of the first space in s, if any. */
  function FirstSpace(s: string): (r: Option<nat>)
    ensures r.Some? ==> r.value < |s| && s[r.value] == ' '
    ensures r.Some? ==> forall j | 0 <= j < r.value :: s[j] != ' '
    ensures r.None? ==> forall j | 0 <= j < |s| :: s[j] != ' '
  {
    if s == [] then None
    else if s[0] == ' ' then Some(0)
    else match FirstSpace(s[1..])
      case None => None
      case Some(i) => Some(i + 1)
  }

  /** strings.SplitN(s, " ", 2): the text before the first space and the text after it, or s alone. */
  function SplitN2(s: string): (parts: seq<string>)
    ensures |parts| == 1 || |parts| == 2
    ensures |parts| == 1 <==> forall j | 0 <= j < |s| :: s[j] != ' '
    ensures |parts| == 1 ==> parts[0] == s
    ensures |parts| == 2 ==> s == parts[0] + " " + parts[1]
    ensures |parts| == 2 ==> forall j | 0 <= j < |parts[0]| :: parts[0][j] != ' '
  {
    match FirstSpace(s)
    case None => [s]
    case Some(i) =>
      assert s == s[..i] + " " + s[i + 1..];
      [s[..i], s[i + 1..]]
  }

  /**
    The split yields exactly two parts with "Bearer" first precisely when the
    header begins with "Bearer "; the second part is then everything after that
    first space, spaces included.
  */
  lemma BearerSplit(header: string)
    ensures var parts := SplitN2(header);
      (|parts| == 2 && parts[0] == "Bearer") <==> "Bearer " <= header
    ensures "Bearer " <= header ==> SplitN2(header) == ["Bearer", header[7..]]
  {
    var r := FirstSpace(header);
    if "Bearer " <= header {
      assert header[6] == ' ';
      assert r.Some?;
      assert forall j | 0 <= j < 6 :: header[j] != ' ' by {
        assert header[..7] == "Bearer ";
      }
      assert r.value == 6;
    }
  }

  /** The signing method a token's header names, reduced to whether it belongs to the HMAC family. */
  datatype SigningMethod = Hmac(alg: string) | NonHmac(alg: string)

  /** The key function the filter hands to jwt.Parse: the shared secret for HMAC methods, an error for any other. */
  function KeyFunc(alg: SigningMethod, secret: string): (key: Result<string, Error>)
    ensures key.Success? <==> alg.Hmac?
    ensures key.Success? ==> key.value == secret
  {
    match alg
    case Hmac(_) => Success(secret)
    case NonHmac(name) => Failure(Failed("unexpected signing method: " + name))
  }

  /**
    The claims of a jwt.MapClaims that the core reads: `sub` and `email`
    (nil when the token has none). A `sub` that is missing or not a string
    makes the Go code panic; here it is always text.
  */
  datatype MapClaims = MapClaims(sub: string, email: Option<string>)

  /** token.Claims: a jwt.MapClaims, or some other claims type. */
  datatype Claims = Map(mapClaims: MapClaims) | OtherClaims

  /** A parsed token: its claims and its Valid flag. */
  datatype Token = Token(claims: Claims, valid: bool)

  /** The JWT library, kept abstract. */
  datatype JwtLibrary = JwtLibrary(
    // The signing method a token names; None when the token is malformed or names an unknown method.
    methodOf: string -> Option<SigningMethod>,
    // The rest of jwt.Parse once it has a key: signature and expiry checks; None is an error.
    verify: (string, string) -> Option<Token>)

  /** jwt.Parse(tokenString, keyFunc) with the filter's key function; None when Parse returns an error. */
  function Parse(lib: JwtLibrary, tokenString: string, secret: string): (t: Option<Token>)
    ensures t.Some? ==> lib.methodOf(tokenString).Some? && lib.methodOf(tokenString).value.Hmac?
    ensures t.Some? ==> t == lib.verify(tokenString, secret)
  {
    match lib.methodOf(tokenString)
    case None => None
    case Some(m) =>
      match KeyFunc(m, secret)
      case Failure(_) => None
      case Success(key) => lib.verify(tokenString, key)
  }

  /** Only HMAC tokens reach the signature check, and always with the shared secret; any other method is a parse error. */
  lemma HmacOnly(lib: JwtLibrary, tokenString: string, secret: string)
    ensures lib.methodOf(tokenString).Some? && lib.methodOf(tokenString).value.Hmac? ==>
      Parse(lib, tokenString, secret) == lib.verify(tokenString, secret)
    ensures lib.methodOf(tokenString).Some? && lib.methodOf(tokenString).value.NonHmac? ==>
      Parse(lib, tokenString, secret) == None
    ensures lib.methodOf(tokenString).None? ==> Parse(lib, tokenString, secret) == None
  {
  }

  /** uint(strconv.Atoi(claims["sub"])); None when `sub` is not an integer. */
  function SubjectUid(c: MapClaims): (uid: Option<Uint>)
    ensures uid.Some? <==> Atoi(c.sub).Some?
    ensures uid.Some? ==> IntOf(uid.value) == Atoi(c.sub).value
  {
    match Atoi(c.sub)
    case None => None
    case Some(n) => Some(UintOf(n))
  }

  /** What the filter does with a request. */
  datatype Verdict = Exempt | Rejected | Authenticated(uid: Uint, email: Option<string>)

  /** The decision for a token that passed the header check. */
  function TokenVerdict(parsed: Option<Token>): (v: Verdict)
    ensures !v.Exempt?
    ensures v.Authenticated? ==> parsed.Some? && parsed.value.claims.Map? && parsed.value.valid
    ensures v.Authenticated? ==>
      Some(v.uid) == SubjectUid(parsed.value.claims.mapClaims) && v.email == parsed.value.claims.mapClaims.email
  {
    match parsed
    case None => Rejected
    case Some(t) =>
      if !t.claims.Map? || !t.valid then Rejected
      else match SubjectUid(t.claims.mapClaims)
        case None => Rejected
        case Some(uid) => Authenticated(uid, t.claims.mapClaims.email)
  }

  /** The filter's decision for a request to url with the given Authorization header. */
  function Decide(url: string, header: string, secret: string, lib: JwtLibrary): (v: Verdict)
    ensures v.Exempt? <==> LoginPath <= url
    ensures v.Authenticated? ==> "Bearer " <= header && Parse(lib, header[7..], secret).Some?
  {
    BearerSplit(header);
    if LoginPath <= url then Exempt
    else
      var parts := SplitN2(header);
      if |parts| != 2 || parts[0] != "Bearer" then Rejected
      else TokenVerdict(Parse(lib, parts[1], secret))
  }

  /** Outside the login route, a header not beginning with "Bearer " is rejected. */
  lemma RejectedWithoutBearer(url: string, header: string, secret: string, lib: JwtLibrary)
    requires !(LoginPath <= url) && !("Bearer " <= header)
    ensures Decide(url, header, secret, lib) == Rejected
  {
    BearerSplit(header);
  }

  /** The token checked is exactly the text after "Bearer ", even when it holds further spaces. */
  lemma TokenAfterFirstSpace(url: string, token: string, secret: string, lib: JwtLibrary)
    requires !(LoginPath <= url)
    ensures Decide(url, "Bearer " + token, secret, lib) == TokenVerdict(Parse(lib, token, secret))
  {
    var header := "Bearer " + token;
    assert "Bearer " <= header;
    BearerSplit(header);
    assert header[7..] == token;
  }

  /**
    A token is accepted exactly when it parses without error, carries map
    claims, is valid and has an integer `sub`; the verdict then carries
    uint(sub) and the email claim.
  */
  lemma TokenChecks(parsed: Option<Token>)
    ensures TokenVerdict(parsed).Exempt? == false
    ensures TokenVerdict(parsed).Authenticated? <==>
      parsed.Some? && parsed.value.claims.Map? && parsed.value.valid && SubjectUid(parsed.value.claims.mapClaims).Some?
    ensures TokenVerdict(parsed).Authenticated? ==>
      TokenVerdict(parsed).uid == SubjectUid(parsed.value.claims.mapClaims).value &&
      TokenVerdict(parsed).email == parsed.value.claims.mapClaims.email
  {
  }

  /** The whole chain of checks a request must pass to be authenticated. */
  lemma AuthenticatedOnlyWhen(url: string, header: string, secret: string, lib: JwtLibrary)
    ensures Decide(url, header, secret, lib).Authenticated? <==>
      && !(LoginPath <= url)
      && "Bearer " <= header
      && lib.methodOf(header[7..]).Some? && lib.methodOf(header[7..]).value.Hmac?
      && var t := lib.verify(header[7..], secret);
         t.Some? && t.value.claims.Map? && t.value.valid && SubjectUid(t.value.claims.mapClaims).Some?
  {
    BearerSplit(header);
    if !(LoginPath <= url) && "Bearer " <= header {
      HmacOnly(lib, header[7..], secret);
    }
  }

  /** The keys of ctx.Input data (infra/constant). */
  datatype ContextKey = ContextUID | ContextEmail | ContextCtx

  /** The values the filter stores: a uid, the email claim as stored (nil when absent), a context.Context. */
  datatype Datum = UidValue(uid: Uint) | EmailValue(email: Option<string>) | CtxValue(ctx: GoContext)

  /** A context.Context built by context.WithValue over context.Background(). */
  datatype GoContext = Background | WithValue(parent: GoContext, key: ContextKey, value: Datum)
  {
    /** ctx.Value(key): the innermost value stored under key. */
    function Value(key: ContextKey): Option<Datum>
    {
      match this
      case Background => None
      case WithValue(parent, k, v) => if k == key then Some(v) else parent.Value(key)
    }
  }

  /**
    The context the filter stores under ContextCtx: it answers with the same
    uid and email as the request data, and holds nothing under ContextCtx.
  */
  function SessionContext(uid: Uint, email: Option<string>): (ctx: GoContext)
    ensures ctx.Value(ContextUID) == Some(UidValue(uid))
    ensures ctx.Value(ContextEmail) == Some(EmailValue(email))
    ensures ctx.Value(ContextCtx) == None
  {
    var inner := WithValue(Background, ContextUID, UidValue(uid));
    assert inner.Value(ContextCtx) == None;
    WithValue(inner, ContextEmail, EmailValue(email))
  }

  /** One request as the filter sees it: its URL and header, what it writes back, and ctx.Input data. */
  class FilterContext {
    const url: string
    const authorization: string
    var status: Option<int>
    var body: string
    var data: map<ContextKey, Datum>

    constructor (url: string, authorization: string)
      ensures this.url == url && this.authorization == authorization
      ensures status == None && body == "" && data == map[]
    {
      this.url := url;
      this.authorization := authorization;
      status := None;
      body := "";
      data := map[];
    }

    /** w.WriteHeader(401); w.Write([]byte("401 Unauthorized\n")) */
    method WriteUnauthorized()
      modifies this
      ensures status == Some(UnauthorizedStatus) && body == old(body) + UnauthorizedBody
      ensures data == old(data)
    {
      status := Some(UnauthorizedStatus);
      body := body + UnauthorizedBody;
    }
  }

  /** The VerifyToken filter run on one request. */
  method VerifyToken(secret: string, lib: JwtLibrary, ctx: FilterContext)
    modifies ctx
    ensures match Decide(ctx.url, ctx.authorization, secret, lib)
      case Exempt =>
        ctx.status == old(ctx.status) && ctx.body == old(ctx.body) && ctx.data == old(ctx.data)
      case Rejected =>
        ctx.status == Some(UnauthorizedStatus) && ctx.body == old(ctx.body) + UnauthorizedBody &&
        ctx.data == old(ctx.data)
      case Authenticated(uid, email) =>
        ctx.status == old(ctx.status) && ctx.body == old(ctx.body) &&
        ctx.data == old(ctx.data)[ContextUID := UidValue(uid)][ContextEmail := EmailValue(email)]
                                 [ContextCtx := CtxValue(SessionContext(uid, email))]
  {
    if LoginPath <= ctx.url {
      return;
    }
    var s := SplitN2(ctx.authorization);
    if |s| != 2 || s[0] != "Bearer" {
      ctx.WriteUnauthorized();
      return;
    }
    var token := Parse(lib, s[1], secret);
    if token.None? {
      ctx.WriteUnauthorized();
      return;
    }
    if !token.value.claims.Map? || !token.value.valid {
      ctx.WriteUnauthorized();
      return;
    }
    var claims := token.value.claims.mapClaims;
    var uid := Atoi(claims.sub);
    if uid.None? {
      ctx.WriteUnauthorized();
      return;
    }
    ctx.data := ctx.data[ContextUID := UidValue(UintOf(uid.value))];
    ctx.data := ctx.data[ContextEmail := EmailValue(claims.email)];
    var custom := WithValue(Background, ContextUID, UidValue(UintOf(uid.value)));
    custom := WithValue(custom, ContextEmail, EmailValue(claims.email));
    ctx.data := ctx.data[ContextCtx := CtxValue(custom)];
  }
}
