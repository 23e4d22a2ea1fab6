/**
 * The profile the strategy hands to the application's `verify` callback:
 * the claims the token-info endpoint returns, with `iat` and `exp` turned
 * from seconds into the millisecond time value of a JavaScript `Date`.
 * `iss`, `sub`, `aud`, `exp`, `iat` and `azp` are ID Token claims (section 2
 * of OpenID Connect Core 1.0); `email`, `email_verified`, `name`, `picture`,
 * `given_name`, `family_name` and `locale` are Standard Claims (section 5.1);
 * `hd` is Google's hosted-domain claim.
 */
module Profiles {
  import opened Wrappers
  import opened JsParseInt

  /** The parsed JSON body of a token-info response: every claim arrives as a string. */
  type TokenInfo = map<string, string>

  /**
   * A profile. `None` is a claim the response did not carry; for `iat` and
   * `exp` it is also a claim that does not denote a valid `Date`.
   */
  datatype Profile = Profile(
    iss: Option<string>,
    sub: Option<string>,
    azp: Option<string>,
    aud: Option<string>,
    iat: Option<int>,
    exp: Option<int>,
    hd: Option<string>,
    email: Option<string>,
    email_verified: Option<string>,
    name: Option<string>,
    picture: Option<string>,
    given_name: Option<string>,
    family_name: Option<string>,
    locale: Option<string>)

  /** The claims a profile copies unchanged. */
  const CopiedClaims: set<string> :=
    {"iss", "sub", "azp", "aud", "hd", "email", "email_verified",
     "name", "picture", "given_name", "family_name", "locale"}

  /** The largest magnitude of a valid `Date` time value, in milliseconds. */
  const MaxTimeMs: int := 8_640_000_000_000_000

  /** `response.key`: `None` when the property is undefined. */
  function Claim(info: TokenInfo, key: string): Option<string> {
    if key in info then Some(info[key]) else None
  }

  /** TimeClip: a `Date` built from a time value outside the valid range is an Invalid Date. */
  function TimeClip(ms: int): Option<int> {
    if -MaxTimeMs <= ms <= MaxTimeMs then Some(ms) else None
  }

  /**
   * `new Date(1000 * parseInt(raw))`, as a millisecond time value; `None` is
   * an Invalid Date. A timestamp is a whole number of seconds within the
   * `Date` range, and those seconds are what `parseInt` reads from the claim.
   */
  function TimestampMs(raw: Option<string>): (r: Option<int>)
    ensures raw.None? ==> r.None?
    ensures r.Some? ==> && raw.Some? && ParseInt(raw.value).Some?
                        && r.value == 1000 * ParseInt(raw.value).value
                        && -MaxTimeMs <= r.value <= MaxTimeMs
    ensures raw.Some? && ParseInt(raw.value).Some?
            && -MaxTimeMs <= 1000 * ParseInt(raw.value).value <= MaxTimeMs ==>
              r == Some(1000 * ParseInt(raw.value).value)
  {
    match raw
    case None => None
    case Some(s) =>
      match ParseInt(s)
      case None => None
      case Some(seconds) => TimeClip(1000 * seconds)
  }

  /** The profile built from a token-info response. */
  function MakeProfile(response: TokenInfo): (p: Profile)
    ensures p.iat == TimestampMs(Claim(response, "iat"))
    ensures p.exp == TimestampMs(Claim(response, "exp"))
    ensures forall key :: key in CopiedClaims ==> ProfileClaim(p, key) == Claim(response, key)
  {
    var p := Profile(
      iss := Claim(response, "iss"),
      sub := Claim(response, "sub"),
      azp := Claim(response, "azp"),
      aud := Claim(response, "aud"),
      iat := TimestampMs(Claim(response, "iat")),
      exp := TimestampMs(Claim(response, "exp")),
      hd := Claim(response, "hd"),
      email := Claim(response, "email"),
      email_verified := Claim(response, "email_verified"),
      name := Claim(response, "name"),
      picture := Claim(response, "picture"),
      given_name := Claim(response, "given_name"),
      family_name := Claim(response, "family_name"),
      locale := Claim(response, "locale"));
    CopiedClaimsAgree(p, response);
    p
  }

  /** A profile whose twelve claim fields are the response's claims agrees with it on every copied claim name. */
  lemma CopiedClaimsAgree(p: Profile, response: TokenInfo)
    requires && p.iss == Claim(response, "iss") && p.sub == Claim(response, "sub")
             && p.azp == Claim(response, "azp") && p.aud == Claim(response, "aud")
             && p.hd == Claim(response, "hd") && p.email == Claim(response, "email")
             && p.email_verified == Claim(response, "email_verified") && p.name == Claim(response, "name")
             && p.picture == Claim(response, "picture") && p.given_name == Claim(response, "given_name")
             && p.family_name == Claim(response, "family_name") && p.locale == Claim(response, "locale")
    ensures forall key :: key in CopiedClaims ==> ProfileClaim(p, key) == Claim(response, key)
  {
    forall key | key in CopiedClaims
      ensures ProfileClaim(p, key) == Claim(response, key)
    {
      if key == "iss" {} else if key == "sub" {} else if key == "azp" {} else if key == "aud" {}
      else if key == "hd" {} else if key == "email" {} else if key == "email_verified" {}
      else if key == "name" {} else if key == "picture" {} else if key == "given_name" {}
      else if key == "family_name" {} else {}
    }
  }

  /** The profile's value for one of the copied claims, looked up by its claim name. */
  function ProfileClaim(p: Profile, key: string): Option<string> {
    match key
    case "iss" => p.iss
    case "sub" => p.sub
    case "azp" => p.azp
    case "aud" => p.aud
    case "hd" => p.hd
    case "email" => p.email
    case "email_verified" => p.email_verified
    case "name" => p.name
    case "picture" => p.picture
    case "given_name" => p.given_name
    case "family_name" => p.family_name
    case "locale" => p.locale
    case _ => None
  }

  /** The copied claims of a profile, as a map from claim name to value. */
  function ProfileClaims(p: Profile): map<string, string> {
    map key | key in CopiedClaims && ProfileClaim(p, key).Some? :: ProfileClaim(p, key).value
  }

  /**
   * Apart from the two timestamps, a profile holds exactly the response's
   * copied claims: every one of them with its value, and no other key.
   */
  lemma MakeProfileClaims(response: TokenInfo)
    ensures ProfileClaims(MakeProfile(response))
         == map key | key in response && key in CopiedClaims :: response[key]
  {
    var p := MakeProfile(response);
    var lhs := ProfileClaims(p);
    var rhs := map key | key in response && key in CopiedClaims :: response[key];
    forall key | key in CopiedClaims
      ensures (key in lhs <==> key in rhs) && (key in lhs ==> lhs[key] == rhs[key])
    {
      assert ProfileClaim(p, key) == Claim(response, key);
    }
    assert lhs.Keys == rhs.Keys;
  }

  /** A decimal-seconds timestamp in the `Date` range becomes that many seconds, in milliseconds. */
  lemma TimestampScaling(seconds: nat)
    requires 1000 * seconds <= MaxTimeMs
    ensures TimestampMs(Some(DecimalString(seconds))) == Some(1000 * seconds)
  {
    ParseIntDecimalString(seconds);
    assert TimeClip(1000 * seconds) == Some(1000 * seconds);
  }

  /** A claim that does not parse as a number, or lies outside the `Date` range, gives no timestamp. */
  lemma TimestampAbsent(raw: Option<string>)
    requires raw.Some? ==> ParseInt(raw.value).None? || TimeClip(1000 * ParseInt(raw.value).value).None?
    ensures TimestampMs(raw) == None
  {
  }

  /** A response without `iat` and `exp`: both timestamps are absent, not the epoch. */
  lemma MakeProfileWithoutTimestamps(response: TokenInfo)
    requires "iat" !in response && "exp" !in response
    ensures MakeProfile(response).iat == None && MakeProfile(response).exp == None
  {
  }
}
