/**
 * The Passport strategy `google-idtoken`: its configuration, the
 * `authenticate` entry point that chains the token locator, the validator
 * and the application's `verify` callback, and `done`, which turns the
 * callback's answer into one of Passport's three outcomes.
 */
module Strategy {
  import opened Wrappers
  import opened JsValues
  import opened JsParseInt
  import opened TokenLocator
  import opened Profiles
  import opened Validation

  /** The three results a strategy reports to Passport: `this.error`, `this.fail` or `this.success`. */
  datatype Outcome = Error(error: JsValue) | Fail(info: JsValue) | Success(user: JsValue)

  /** The `(error, user, info)` that the application's `verify` passes to `done`. */
  datatype VerifyReply = VerifyReply(error: JsValue, user: JsValue, info: JsValue)

  /** The constructor's options object; `None` is an option left undefined. */
  datatype Options = Options(tokenParamName: Option<string>, tokenInfoUrl: Option<string>)

  /** The token-info POST handed to the HTTP client: target URL and form fields. */
  datatype PostRequest = PostRequest(url: string, form: map<string, string>)

  const StrategyName: string := "google-idtoken"
  const DefaultTokenParamName: string := "id_token"
  const DefaultTokenInfoUrl: string := "https://www.googleapis.com/oauth2/v3/tokeninfo"

  /** `option || fallback`: an undefined or empty option falls back. */
  function OrDefault(option: Option<string>, fallback: string): string {
    if option.Some? && option.value != "" then option.value else fallback
  }

  function MissingParameterMessage(name: string): string {
    "parameter " + name + " is not present in req"
  }

  /** The POST of the token to the token-info endpoint, always under the form key `id_token`. */
  function TokenInfoRequest(url: string, token: string): (r: PostRequest)
    ensures r.url == url && r.form.Keys == {"id_token"} && r.form["id_token"] == token
  {
    PostRequest(url, map["id_token" := token])
  }

  /**
   * `done(error, user, info)`: a truthy error is an error, whatever the user;
   * otherwise a falsy user is a failure carrying `info`; otherwise a success
   * carrying the user.
   */
  function Done(error: JsValue, user: JsValue, info: JsValue): (r: Outcome)
    ensures r.Error? <==> Truthy(error)
    ensures r.Fail? <==> !Truthy(error) && !Truthy(user)
    ensures r.Success? <==> !Truthy(error) && Truthy(user)
    ensures r.Error? ==> r.error == error
    ensures r.Fail? ==> r.info == info
    ensures r.Success? ==> r.user == user
  {
    if Truthy(error) then Error(error)
    else if !Truthy(user) then Fail(info)
    else Success(user)
  }

  /** The outcomes of the three cases `done` distinguishes, for the values a caller typically passes. */
  lemma DoneCases(error: string, info: string, user: string)
    requires error != "" && user != ""
    ensures Done(Str(error), Undefined, Undefined) == Error(Str(error))
    ensures Done(Null, Bool(false), Str(info)) == Fail(Str(info))
    ensures Done(Null, Str(user), Undefined) == Success(Str(user))
  {
  }

  /** The strategy object; its configuration is fixed when it is constructed. */
  class GoogleIdTokenStrategy {
    const name: string
    const tokenParamName: string
    const tokenInfoUrl: string
    /** The application's `verify(profile, done)`, as the answer it gives `done` for a profile. */
    const verify: Profile -> VerifyReply

    /** Options that are absent or empty take their defaults. */
    constructor (options: Options, verify: Profile -> VerifyReply)
      ensures name == StrategyName
      ensures tokenParamName == if options.tokenParamName.Some? && options.tokenParamName.value != ""
                                then options.tokenParamName.value else DefaultTokenParamName
      ensures tokenInfoUrl == if options.tokenInfoUrl.Some? && options.tokenInfoUrl.value != ""
                              then options.tokenInfoUrl.value else DefaultTokenInfoUrl
      ensures this.verify == verify
    {
      name := StrategyName;
      tokenParamName := OrDefault(options.tokenParamName, DefaultTokenParamName);
      tokenInfoUrl := OrDefault(options.tokenInfoUrl, DefaultTokenInfoUrl);
      this.verify := verify;
    }

    /**
     * `authenticate(req)` at time `now`, with `post` standing for the HTTP
     * client. Without a token it reports the missing parameter; an outcome
     * other than an error is only ever reached through a token that was
     * found in the request and validated by the token-info endpoint.
     */
    function Authenticate(req: Request, post: PostRequest -> Reply, now: int): (r: Outcome)
      ensures ParamFromRequest(req, tokenParamName) == "" ==>
        r == Error(Str(MissingParameterMessage(tokenParamName)))
      ensures !r.Error? ==>
        && ParamFromRequest(req, tokenParamName) != ""
        && ValidateIdToken(post(TokenInfoRequest(tokenInfoUrl, ParamFromRequest(req, tokenParamName))), now).Valid?
    {
      var token := ParamFromRequest(req, tokenParamName);
      if token == "" then
        Done(Str(MissingParameterMessage(tokenParamName)), Undefined, Undefined)
      else
        match ValidateIdToken(post(TokenInfoRequest(tokenInfoUrl, token)), now)
        case Invalid(e) => Done(e, Undefined, Undefined)
        case Valid(profile) =>
          var answer := verify(profile);
          Done(answer.error, answer.user, answer.info)
    }
  }

  /** Without a token no POST is made: the outcome does not depend on the HTTP client. */
  lemma MissingTokenSkipsValidation(s: GoogleIdTokenStrategy, req: Request, post: PostRequest -> Reply, post': PostRequest -> Reply, now: int)
    requires ParamFromRequest(req, s.tokenParamName) == ""
    ensures s.Authenticate(req, post, now) == s.Authenticate(req, post', now)
         == Error(Str("parameter " + s.tokenParamName + " is not present in req"))
  {
  }

  /** A validation error is reported as it is. */
  lemma ValidationErrorReported(s: GoogleIdTokenStrategy, req: Request, post: PostRequest -> Reply, now: int)
    requires var token := ParamFromRequest(req, s.tokenParamName);
      token != "" && ValidateIdToken(post(TokenInfoRequest(s.tokenInfoUrl, token)), now).Invalid?
    ensures var token := ParamFromRequest(req, s.tokenParamName);
      s.Authenticate(req, post, now) == Error(ValidateIdToken(post(TokenInfoRequest(s.tokenInfoUrl, token)), now).error)
  {
  }

  /** A validated profile is handed unchanged to `verify`, whose answer `done` translates. */
  lemma VerifyReceivesProfile(s: GoogleIdTokenStrategy, req: Request, post: PostRequest -> Reply, now: int)
    requires var token := ParamFromRequest(req, s.tokenParamName);
      token != "" && ValidateIdToken(post(TokenInfoRequest(s.tokenInfoUrl, token)), now).Valid?
    ensures var token := ParamFromRequest(req, s.tokenParamName);
      var answer := s.verify(ValidateIdToken(post(TokenInfoRequest(s.tokenInfoUrl, token)), now).profile);
      s.Authenticate(req, post, now) == Done(answer.error, answer.user, answer.info)
  {
  }

  /**
   * A success is only ever reported for a token whose token-info response
   * carried a non-empty email and an expiry time no earlier than `now`.
   */
  lemma SuccessRequiresUnexpiredToken(s: GoogleIdTokenStrategy, req: Request, post: PostRequest -> Reply, now: int)
    requires s.Authenticate(req, post, now).Success?
    ensures var reply := post(TokenInfoRequest(s.tokenInfoUrl, ParamFromRequest(req, s.tokenParamName)));
      && reply.Body? && reply.parsed.Some?
      && Claim(reply.parsed.value, "email").Some? && Claim(reply.parsed.value, "email").value != ""
      && TimestampMs(Claim(reply.parsed.value, "exp")).Some?
      && now <= TimestampMs(Claim(reply.parsed.value, "exp")).value
  {
    var reply := post(TokenInfoRequest(s.tokenInfoUrl, ParamFromRequest(req, s.tokenParamName)));
    assert ValidateIdToken(reply, now).Valid?;
    var p := MakeProfile(reply.parsed.value);
    assert p.email == Claim(reply.parsed.value, "email");
  }

  /**
   * End to end: a token in the query string and a token-info response with
   * an email and a future `exp` reach `verify` with a profile carrying that email.
   */
  lemma QueryTokenReachesVerify(s: GoogleIdTokenStrategy, post: PostRequest -> Reply, text: string, info: TokenInfo, now: int, seconds: nat)
    requires s.tokenParamName == DefaultTokenParamName
    requires post(TokenInfoRequest(s.tokenInfoUrl, "tok")) == Body(text, Some(info))
    requires Claim(info, "email") == Some("a@b.com")
    requires Claim(info, "exp") == Some(DecimalString(seconds)) && now <= 1000 * seconds <= MaxTimeMs
    ensures var answer := s.verify(MakeProfile(info));
      s.Authenticate(Request(None, Some(map["id_token" := "tok"]), None), post, now)
        == Done(answer.error, answer.user, answer.info)
    ensures MakeProfile(info).email == Some("a@b.com")
  {
    var req := Request(None, Some(map["id_token" := "tok"]), None);
    assert ParamFromRequest(req, "id_token") == "tok";
    RawExpiryDecision(text, info, now, seconds);
  }

  /** End to end: a request without a token under the default name reports the missing parameter. */
  lemma NoTokenReportsMissingParameter(s: GoogleIdTokenStrategy, post: PostRequest -> Reply, now: int)
    requires s.tokenParamName == DefaultTokenParamName
    ensures s.Authenticate(Request(None, None, None), post, now)
         == Error(Str("parameter id_token is not present in req"))
  {
    EmptyRequest(s.tokenParamName);
    DefaultMissingParameterMessage();
  }

  lemma DefaultMissingParameterMessage()
    ensures MissingParameterMessage(DefaultTokenParamName) == "parameter id_token is not present in req"
  {
    var m := MissingParameterMessage(DefaultTokenParamName);
    assert |m| == |"parameter id_token is not present in req"|;
  }
}
