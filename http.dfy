/**
 * The request and response objects the handlers read and update in place, and the
 * configuration they consult. Rendering, redirecting, flashing, setting a cookie and
 * continuing the middleware chain are recorded on these objects; producing HTML from
 * a template and transporting cookies and flash messages are not modelled.
 */
module Http {
  import opened Wrappers
  import opened Js

  /** A template name and the data object passed to it. */
  datatype View = View(name: string, data: map<string, Value>)

  /** A signed access token: the payload it carries. The signature and the expiry
      claim are computed by the token library and are not modelled. */
  datatype Token = Token(payload: map<string, Value>)

  /** `res.cookie(name, token, { httpOnly, secure, maxAge })`. */
  datatype Cookie = Cookie(name: string, token: Token, httpOnly: bool, secure: bool, maxAge: int)

  /** `req.flash(kind, message)`. */
  datatype FlashMessage = FlashMessage(kind: string, message: string)

  /** The cookie lifetime in milliseconds, `3600 * 1000`. */
  const CookieMaxAge: int := 3600 * 1000

  /** The process environment: `NODE_ENV` and the token-signing secret `ACCESS_TOKEN_SECRET`. */
  datatype Config = Config(nodeEnv: Option<string>, accessTokenSecret: Option<string>)

  /** `process.env.NODE_ENV === 'development'`. */
  predicate IsDevelopment(cfg: Config)
  {
    cfg.nodeEnv == Some("development")
  }

  /** `app.get("env")`: Express takes `NODE_ENV`, or "development" when it is unset or empty. */
  function AppEnv(cfg: Config): (env: string)
    ensures cfg.nodeEnv.Some? && cfg.nodeEnv.value != "" ==> env == cfg.nodeEnv.value
    ensures cfg.nodeEnv.None? || cfg.nodeEnv == Some("") ==> env == "development"
  {
    if cfg.nodeEnv.Some? && cfg.nodeEnv.value != "" then cfg.nodeEnv.value else "development"
  }

  /** `jwt.sign(payload, secret, { expiresIn })`: signs a plain object; throws when the
      payload is not an object or the secret is missing. */
  function Sign(payload: Value, cfg: Config): (r: Result<Token, JsError>)
    ensures r.Ok? <==> payload.Obj? && cfg.accessTokenSecret.Some? && cfg.accessTokenSecret.value != ""
    ensures r.Ok? ==> r.value.payload == payload.fields
  {
    if !payload.Obj? then Err(PlainError("Expected \"payload\" to be a plain object."))
    else if cfg.accessTokenSecret.None? || cfg.accessTokenSecret.value == "" then
      Err(PlainError("secretOrPrivateKey must have a value"))
    else Ok(Token(payload.fields))
  }

  /** `m[key]` on a plain object held as a map: `undefined` when absent. */
  function Field(m: map<string, Value>, key: string): (r: Value)
    ensures key in m ==> r == m[key]
    ensures key !in m ==> r == Undefined
  {
    if key in m then m[key] else Undefined
  }

  /** `res.locals.accountData.account_id`: the logged-in account's identifier, put in
      `res.locals` by the login gate. Reading it without a logged-in account throws. */
  function SessionAccountId(locals: map<string, Value>): (r: Result<Value, JsError>)
    ensures r.Err? <==> Field(locals, "accountData") == Undefined || Field(locals, "accountData") == Null
  {
    Get(Field(locals, "accountData"), "account_id")
  }

  class Request {
    /** `req.body`, after the validation chain's sanitizers have run. */
    var body: map<string, string>
    /** `req.params`. */
    var params: map<string, Value>
    /** What `validationResult(req)` reports: the errors the validation chain collected. */
    var errors: seq<FieldError>
    /** The flash messages queued by `req.flash`. */
    var flashes: seq<FlashMessage>

    constructor (body: map<string, string>, params: map<string, Value>, errors: seq<FieldError>)
      ensures this.body == body && this.params == params && this.errors == errors
      ensures flashes == []
    {
      this.body := body;
      this.params := params;
      this.errors := errors;
      flashes := [];
    }

    /** Running validation chains: the body takes the sanitized values and the chains'
        errors are added to what `validationResult(req)` reports. */
    method RecordValidation(sanitized: map<string, string>, found: seq<FieldError>)
      modifies this`body, this`errors
      ensures body == sanitized && errors == old(errors) + found
    {
      body := sanitized;
      errors := errors + found;
    }

    /** `req.params[key] = v`. */
    method SetParam(key: string, v: Value)
      modifies this`params
      ensures params == old(params)[key := v]
    {
      params := params[key := v];
    }

    method Flash(kind: string, message: string)
      modifies this`flashes
      ensures flashes == old(flashes) + [FlashMessage(kind, message)]
    {
      flashes := flashes + [FlashMessage(kind, message)];
    }
  }

  class Response {
    var statusCode: int
    /** `res.locals`: request-scoped data visible to the templates. */
    var locals: map<string, Value>
    var rendered: Option<View>
    /** The target of `res.redirect`. */
    var location: Option<string>
    var cookies: seq<Cookie>
    /** Whether `next()` was called: the chain continues with the next handler. */
    var nextCalled: bool
    /** The handler this one handed the request to by calling it directly. */
    var delegatedTo: Option<string>

    constructor (locals: map<string, Value>)
      ensures this.locals == locals && statusCode == 200
      ensures rendered == None && location == None && cookies == []
      ensures !nextCalled && delegatedTo == None
    {
      this.locals := locals;
      statusCode := 200;
      rendered := None;
      location := None;
      cookies := [];
      nextCalled := false;
      delegatedTo := None;
    }

    /** `res.status(code)`. */
    method Status(code: int)
      modifies this`statusCode
      ensures statusCode == code
    {
      statusCode := code;
    }

    /** `res.locals[key] = v`. */
    method SetLocal(key: string, v: Value)
      modifies this`locals
      ensures locals == old(locals)[key := v]
    {
      locals := locals[key := v];
    }

    /** `res.render(name, data)`. */
    method Render(name: string, data: map<string, Value>)
      modifies this`rendered
      ensures rendered == Some(View(name, data))
    {
      rendered := Some(View(name, data));
    }

    /** `res.redirect(url)`: a 302 to `url`. */
    method Redirect(url: string)
      modifies this`statusCode, this`location
      ensures statusCode == 302 && location == Some(url)
    {
      statusCode := 302;
      location := Some(url);
    }

    /** `res.cookie(...)`. */
    method SetCookie(c: Cookie)
      modifies this`cookies
      ensures cookies == old(cookies) + [c]
    {
      cookies := cookies + [c];
    }

    /** Handing the request to another handler by calling it directly. */
    method Delegate(handler: string)
      modifies this`delegatedTo
      ensures delegatedTo == Some(handler)
    {
      delegatedTo := Some(handler);
    }

    /** `next()`. */
    method Next()
      modifies this`nextCalled
      ensures nextCalled
    {
      nextCalled := true;
    }
  }
}
