/**
 * The token validator: what `validateIdToken` decides once the token-info
 * endpoint has answered the POST of the token.
 */
module Validation {
  import opened Wrappers
  import opened JsValues
  import opened JsParseInt
  import opened Profiles

  /**
   * The HTTP client's answer to the token-info POST: the `error` argument of
   * its callback, or the response body together with what `JSON.parse` makes
   * of it (`None` when it throws).
   */
  datatype Reply =
    | TransportErr(error: JsValue)
    | Body(text: string, parsed: Option<TokenInfo>)

  /** The arguments of one call of `validateIdToken`'s callback: `(error)` or `(null, profile)`. */
  datatype Verdict = Invalid(error: JsValue) | Valid(profile: Profile)

  const ParseErrorPrefix: string := "Could not parse response: "
  const MissingClaimsMessage: string := "profile.exp and profile.email must be defined in token info response"
  const ExpiredMessage: string := "Token is expired"

  /** The profile carries an expiry time and a non-empty email. */
  predicate HasRequiredClaims(p: Profile) {
    p.exp.Some? && p.email.Some? && p.email.value != ""
  }

  /**
   * The validator's single callback at time `now` (milliseconds since the
   * epoch). Every error it reports is truthy, and it passes a profile on
   * exactly when the body parsed into claims that carry an email and an
   * expiry time no earlier than `now`; that profile is the one built from
   * those claims.
   */
  function ValidateIdToken(reply: Reply, now: int): (r: Verdict)
    ensures r.Invalid? ==> Truthy(r.error)
    ensures r.Valid? <==> && reply.Body? && reply.parsed.Some?
                          && HasRequiredClaims(MakeProfile(reply.parsed.value))
                          && now <= MakeProfile(reply.parsed.value).exp.value
    ensures r.Valid? ==> r.profile == MakeProfile(reply.parsed.value)
  {
    match reply
    case TransportErr(e) =>
      // a falsy error leaves no body, and JSON.parse(undefined) throws
      if Truthy(e) then Invalid(e) else Invalid(Str(ParseErrorPrefix + "undefined"))
    case Body(text, parsed) =>
      match parsed
      case None => Invalid(Str(ParseErrorPrefix + text))
      case Some(info) =>
        var profile := MakeProfile(info);
        if !HasRequiredClaims(profile) then Invalid(Str(MissingClaimsMessage))
        else if now > profile.exp.value then Invalid(Str(ExpiredMessage))
        else Valid(profile)
  }

  /** A transport error is handed on unchanged. */
  lemma TransportErrorPassesThrough(e: JsValue, now: int)
    requires Truthy(e)
    ensures ValidateIdToken(TransportErr(e), now) == Invalid(e)
  {
  }

  /** An unparseable body is reported with the body itself, and no profile is produced. */
  lemma ParseFailureReportsBody(text: string, now: int)
    ensures ValidateIdToken(Body(text, None), now) == Invalid(Str("Could not parse response: " + text))
  {
  }

  /** Missing claims are reported before, and regardless of, the expiry comparison. */
  lemma MissingClaimsCheckedFirst(text: string, info: TokenInfo, now: int)
    requires !HasRequiredClaims(MakeProfile(info))
    ensures ValidateIdToken(Body(text, Some(info)), now) == Invalid(Str(MissingClaimsMessage))
  {
  }

  /**
   * With the required claims present, the token is expired exactly when
   * `now` is strictly later than `exp`; otherwise the profile is passed on.
   */
  lemma ExpiryDecision(text: string, info: TokenInfo, now: int)
    requires HasRequiredClaims(MakeProfile(info))
    ensures ValidateIdToken(Body(text, Some(info)), now) == Invalid(Str(ExpiredMessage))
        <==> now > MakeProfile(info).exp.value
    ensures now <= MakeProfile(info).exp.value ==>
      ValidateIdToken(Body(text, Some(info)), now) == Valid(MakeProfile(info))
  {
  }

  /** A reply accepted at some time is accepted, with the same profile, at every earlier time. */
  lemma AcceptanceIsMonotone(reply: Reply, now: int, earlier: int)
    requires earlier <= now && ValidateIdToken(reply, now).Valid?
    ensures ValidateIdToken(reply, earlier) == ValidateIdToken(reply, now)
  {
  }

  /**
   * In terms of the raw claims: a non-empty email and an `exp` of `seconds`
   * in decimal give a profile up to and including the instant `1000 * seconds`
   * milliseconds, and `'Token is expired'` after it.
   */
  lemma RawExpiryDecision(text: string, info: TokenInfo, now: int, seconds: nat)
    requires Claim(info, "exp") == Some(DecimalString(seconds)) && 1000 * seconds <= MaxTimeMs
    requires Claim(info, "email").Some? && Claim(info, "email").value != ""
    ensures ValidateIdToken(Body(text, Some(info)), now)
         == if now > 1000 * seconds then Invalid(Str(ExpiredMessage)) else Valid(MakeProfile(info))
  {
    TimestampScaling(seconds);
    assert MakeProfile(info).exp == Some(1000 * seconds);
  }

  /** A JavaScript `Date`: a time value, or an Invalid Date whose time value is NaN. */
  datatype JsDate = ValidDate(ms: int) | InvalidDate

  /** `new Date(1000 * parseInt(raw))`. */
  function DateFromSeconds(raw: Option<string>): JsDate {
    match TimestampMs(raw)
    case Some(ms) => ValidDate(ms)
    case None => InvalidDate
  }

  /** `now > date`: every comparison with NaN is false. */
  predicate LaterThan(now: int, date: JsDate) {
    date.ValidDate? && now > date.ms
  }

  /**
   * The callbacks `validateIdToken` makes as the code is written, in order.
   * The profile's `exp` is a `Date` object, truthy even when invalid, so only
   * the email is effectively checked; and the catch block carries on after
   * its callback with the empty initial profile.
   */
  function ValidateAsWritten(reply: Reply, now: int): (calls: seq<Verdict>)
    ensures 1 <= |calls| <= 2
    ensures |calls| == 2 <==> (reply.TransportErr? && !Truthy(reply.error)) || (reply.Body? && reply.parsed.None?)
    ensures forall i :: 0 <= i < |calls| && calls[i].Invalid? ==> Truthy(calls[i].error)
    ensures forall i :: 0 <= i < |calls| - 1 ==> calls[i].Invalid?
    ensures calls[|calls| - 1].Valid? ==>
      reply.Body? && reply.parsed.Some? && calls[|calls| - 1].profile == MakeProfile(reply.parsed.value)
  {
    match reply
    case TransportErr(e) =>
      if Truthy(e) then [Invalid(e)] else ParseFailureAsWritten("undefined")
    case Body(text, parsed) =>
      match parsed
      case None => ParseFailureAsWritten(text)
      case Some(info) =>
        var email := Claim(info, "email");
        if !(email.Some? && email.value != "") then [Invalid(Str(MissingClaimsMessage))]
        else if LaterThan(now, DateFromSeconds(Claim(info, "exp"))) then [Invalid(Str(ExpiredMessage))]
        else [Valid(MakeProfile(info))]
  }

  /** The parse-failure callback, then the missing-claims callback for the profile `{}`. */
  function ParseFailureAsWritten(text: string): seq<Verdict> {
    [Invalid(Str(ParseErrorPrefix + text)), Invalid(Str(MissingClaimsMessage))]
  }

  /**
   * As written, a response with an email but no usable `exp` (absent, not a
   * number, or outside the `Date` range) is accepted at every time: the check
   * for `exp` never fires and the token never expires.
   */
  lemma AsWrittenAcceptsTokenWithoutExp(text: string, info: TokenInfo, now: int)
    requires Claim(info, "email").Some? && Claim(info, "email").value != ""
    requires TimestampMs(Claim(info, "exp")) == None
    ensures ValidateAsWritten(Body(text, Some(info)), now) == [Valid(MakeProfile(info))]
    ensures ValidateIdToken(Body(text, Some(info)), now) == Invalid(Str(MissingClaimsMessage))
  {
  }

  /** The response `{"email": "something"}`: accepted as written, rejected by the validator. */
  lemma AsWrittenMissingExpExample(now: int)
    ensures var reply := Body("{\"email\":\"something\"}", Some(map["email" := "something"]));
      && ValidateAsWritten(reply, now) == [Valid(MakeProfile(map["email" := "something"]))]
      && ValidateIdToken(reply, now) == Invalid(Str(MissingClaimsMessage))
  {
    AsWrittenAcceptsTokenWithoutExp("{\"email\":\"something\"}", map["email" := "something"], now);
  }

  /** As written, an unparseable body makes the callback fire twice; the validator calls it once. */
  lemma AsWrittenCallsBackTwice(text: string, now: int)
    ensures |ValidateAsWritten(Body(text, None), now)| == 2
    ensures ValidateAsWritten(Body(text, None), now)[0] == ValidateIdToken(Body(text, None), now)
    ensures ValidateAsWritten(Body(text, None), now)[1] == Invalid(Str(MissingClaimsMessage))
  {
  }

  /**
   * Apart from those two defects the code as written and the validator agree:
   * one callback, with the same arguments, whenever the body parsed and
   * either the email is missing or `exp` denotes a valid `Date`.
   */
  lemma AsWrittenAgreesOtherwise(reply: Reply, now: int)
    requires reply.TransportErr? ==> Truthy(reply.error)
    requires reply.Body? ==> reply.parsed.Some?
    requires reply.Body? ==> var info := reply.parsed.value;
      || Claim(info, "email").None? || Claim(info, "email").value == ""
      || TimestampMs(Claim(info, "exp")).Some?
    ensures ValidateAsWritten(reply, now) == [ValidateIdToken(reply, now)]
  {
  }
}
