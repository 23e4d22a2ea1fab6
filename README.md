# passport-google-idtoken, modelled in Dafny

This project models the decision logic of `GoogleIdTokenStrategy`, a Passport
authentication strategy named `google-idtoken`, and proves properties of it.
The strategy does four things:

1. It finds a Google id token in an incoming request.
2. It posts the token to Google's token-info endpoint.
3. It checks the claims that come back: an email and an expiry time must be
   present, and the token must not be expired.
4. It hands the resulting profile to the application's `verify` callback and
   turns that callback's answer into one of Passport's three outcomes:
   error, fail or success.

Of the claims the profile carries, `iss`, `sub`, `aud`, `exp`, `iat` and `azp`
are ID Token claims (section 2 of OpenID Connect Core 1.0). `email`,
`email_verified`, `name`, `picture`, `given_name`, `family_name` and `locale`
are Standard Claims (section 5.1 of the same document). `hd` is Google's
hosted-domain claim.

Modules. The first three model the JavaScript semantics the code relies on;
the other four follow the components of `index.js`:

- `Wrappers`: the `Option` type. `None` stands for an undefined JavaScript property.
- `JsValues`: JavaScript values and their truthiness (`ToBoolean`).
- `JsParseInt`: the global `parseInt` as section 19.2.5 of ECMAScript 2024
  defines it. It skips leading white space, takes a sign and an optional
  `0x` prefix, then reads the longest digit run. NaN is `None`. It also
  proves that `parseInt` reads a decimal rendering back exactly.
- `TokenLocator`: `paramFromRequest`, with the body taking precedence over
  the query string, and the query string over the route parameters.
- `Profiles`: `makeProfile`. `iat` and `exp` become `1000 * parseInt(seconds)`,
  clipped to the valid `Date` range; outside it, or when unparseable, they are `None`.
- `Validation`: the decision part of `validateIdToken`, in two versions. The
  corrected one is the one the rest of the model uses. The as-written one
  exhibits the two defects listed under Findings.
- `Strategy`: the constructor's configuration, `done`, and `authenticate`.

Time is a parameter `now`, in milliseconds since the epoch. The HTTP client is a
parameter `post` from the POST (URL and form) to the client's reply.
The application's `verify` is a function from a profile to the
`(error, user, info)` it passes to `done`.

## Where the code and its tests disagree

In each case below the model follows the documented and tested intent:

- `authenticate` calls a bare `done` (index.js:55, 59) and `self.verify`
  (index.js:61). Neither name is bound in `index.js`, so every call would
  throw a ReferenceError. The model uses the intended `this.done` and
  `this.verify`, which is what test/index.js:36-75 expects.
- `new Date(1000 * parseInt(undefined))` is an Invalid Date, not
  `undefined`. test/index.js:298-299 expects the absent value, so an absent
  or unusable timestamp is `None` in `Profile`.
- A missing `exp` is never caught at index.js:120, because a `Date` object is
  always truthy. test/index.js:180-193 expects the missing-claims error, and
  the corrected validator reports it. See Findings.
- On a body that does not parse, the callback fires twice (index.js:118 has no
  `return`). The corrected validator stops after the parse error. See Findings.
- The expiry test is strict (`now > exp`, index.js:123): at exactly `exp` the
  token is still accepted.
- The constructor reads `options.tokenParamName`, so `null` options throw,
  although test/index.js:24 expects defaults. The model takes an options record
  whose two fields may be absent.

## Model

| member | source | states |
|---|---|---|
| `JsParseInt.TrimStart` | index.js:154-155 | parseInt's first step removes exactly the leading white-space run; the rest starts with a non-white-space character |
| `JsParseInt.ParseInt` | index.js:154-155 | parseInt yields a number only if the input holds a digit, and a negative number only if it holds a minus sign |
| `JsParseInt.DigitPrefixLength` | index.js:154-155 | the digits parseInt reads are the longest prefix of digits of the radix: all of them are digits and the next character is not |
| `JsParseInt.DecimalStringValue` | index.js:154-155 | the value of a canonical decimal rendering of n is n |
| `JsParseInt.ParseIntDecimal` | index.js:154-155 | parseInt reads a decimal seconds value back exactly, and ignores trailing non-digits unless they would turn a lone 0 into a 0x prefix |
| `JsParseInt.ParseIntNegativeDecimal` | index.js:154-155 | with a leading minus sign parseInt gives the negated number |
| `JsParseInt.ParseIntNoDigits` | index.js:154-155 | with no digit after the white space and sign, parseInt is NaN (None) |
| `TokenLocator.ParamFromRequest` | index.js:86-97 | the result is empty iff none of body, query, params holds a truthy value under the name; otherwise it is a value one of them holds under that name; it never fails, absent parts counting as empty |
| `TokenLocator.ParamPrecedence` | index.js:90-96 | the result equals the first non-empty of body[name], query[name], params[name] (reference definition FirstNonEmpty), or '' |
| `TokenLocator.BodyOverridesQueryAndParams` | index.js:90-92 | a truthy body value wins whatever the query and params hold |
| `TokenLocator.QueryOverridesParams` | index.js:93-95 | without a truthy body value, a truthy query value wins whatever params holds |
| `TokenLocator.EmptyRequest` | index.js:86-97 | a request with no body, query or params yields '' |
| `Profiles.TimestampMs` | index.js:154-155 | new Date(1000 * parseInt(raw)): absent for an absent claim; present exactly when parseInt reads seconds whose 1000-fold lies within the Date range, and then equal to 1000 times those seconds |
| `Profiles.MakeProfile` | index.js:135-157 | each copied claim of the profile is the response's claim; iat and exp are the response's timestamps converted to milliseconds |
| `Profiles.MakeProfileClaims` | index.js:136-152 | the profile's non-timestamp claims are exactly the response restricted to the twelve copied claim names: every one copied unchanged, no other key added |
| `Profiles.TimestampScaling` | index.js:153-155 | a decimal seconds string s in the Date range becomes 1000 * s milliseconds ("4" becomes 4000) |
| `Profiles.TimestampAbsent` | index.js:154-155 | an unparseable timestamp, or one outside the Date range, gives no timestamp |
| `Profiles.MakeProfileWithoutTimestamps` | index.js:154-155 | without raw iat and exp the profile's iat and exp are absent, not epoch 0 |
| `Validation.ValidateIdToken` | index.js:110-127 | every reported error is truthy; a profile is passed on iff the body parsed into claims with an email and an exp no earlier than now, and it is the profile built from those claims |
| `Validation.TransportErrorPassesThrough` | index.js:111-113 | a transport error is reported unchanged |
| `Validation.ParseFailureReportsBody` | index.js:114-119 | an unparseable body is reported as exactly 'Could not parse response: ' + body, with no profile |
| `Validation.MissingClaimsCheckedFirst` | index.js:120-122 | missing exp or missing or empty email gives the missing-claims message at every time, before any expiry comparison |
| `Validation.ExpiryDecision` | index.js:123-126 | with the required claims present the result is 'Token is expired' iff now > exp, and otherwise the profile itself |
| `Validation.AcceptanceIsMonotone` | index.js:123-126 | a reply accepted at some time is accepted, with the same profile, at every earlier time |
| `Validation.RawExpiryDecision` | index.js:120-126 | for raw claims with a non-empty email and exp = decimal seconds s, the profile up to and including 1000 * s ms, 'Token is expired' after |
| `Validation.ValidateAsWritten` | index.js:110-127 | the callbacks the code as written makes: one or two, two exactly on a parse failure (including a falsy transport error), every error truthy, and a profile passed on only as the last call and built from the parsed claims |
| `Validation.AsWrittenAcceptsTokenWithoutExp` | index.js:120-125 | as written, a response with an email and no usable exp is accepted at every time; the corrected validator rejects it |
| `Validation.AsWrittenMissingExpExample` | test/index.js:180-193 | the response {"email": "something"} is accepted as written and rejected by the corrected validator |
| `Validation.AsWrittenCallsBackTwice` | index.js:115-121 | as written, an unparseable body makes two callbacks: the parse error, then the missing-claims message |
| `Validation.AsWrittenAgreesOtherwise` | index.js:110-127 | outside those two defects, the code as written makes exactly the one callback the corrected validator makes |
| `Strategy.TokenInfoRequest` | index.js:105-109 | the POST goes to the configured URL with a form whose only field is id_token, holding the token, whatever the configured parameter name |
| `Strategy.Done` | index.js:71-78 | error iff the error is truthy (carrying it), fail iff no truthy error and a falsy user (carrying info), success iff no truthy error and a truthy user (carrying it) |
| `Strategy.DoneCases` | test/index.js:79-104 | ('e') with user and info undefined gives error 'e'; (null, false, 'i') gives fail 'i'; (null, 'u') gives success 'u' |
| `Strategy.GoogleIdTokenStrategy.constructor` | index.js:35-44 | name is 'google-idtoken'; an absent or empty tokenParamName or tokenInfoUrl takes the default 'id_token' or the Google token-info URL; verify is stored |
| `Strategy.GoogleIdTokenStrategy.Authenticate` | index.js:52-63 | with no token the missing-parameter error; any outcome other than an error implies a token was found and validated |
| `Strategy.MissingTokenSkipsValidation` | index.js:53-56 | with no token the outcome is 'parameter ' + name + ' is not present in req', whatever the HTTP client would answer |
| `Strategy.ValidationErrorReported` | index.js:57-60 | a validation error becomes the error outcome unchanged |
| `Strategy.VerifyReceivesProfile` | index.js:57-62 | a validated profile is passed unchanged to verify, and its answer goes through done |
| `Strategy.SuccessRequiresUnexpiredToken` | index.js:52-63 | success implies the token-info response parsed and carried a non-empty email and an exp no earlier than now |
| `Strategy.QueryTokenReachesVerify` | index.js:52-63 | a token in the query string and a response with email 'a@b.com' and a future exp reach verify with a profile carrying that email |
| `Strategy.NoTokenReportsMissingParameter` | index.js:53-56 | a request without a token under the default name gives 'parameter id_token is not present in req' |

## Left out

- The HTTP POST (index.js:105-110) is I/O. It is the parameter `post`, and its reply is an input value. The status code is not modelled; the code does not inspect it either.
- `JSON.parse` (index.js:116) is a library call. Its result is an abstract `Option<map<string, string>>`. JSON values other than strings (numbers, booleans, `null`, nested objects) are not modelled. Of the bodies that parse to something other than an object, only `null` makes `makeProfile` throw inside the `try`; the model treats it as a parse failure (`parsed = None`). A number, boolean, string or array has no claims of its own, so it acts like an empty claim map (`parsed = Some(map[])`).
- Property lookups on the request parts ignore the prototype chain. In the code, `(req.body || {})[name]` with a name such as `constructor` or `toString` finds an inherited `Object.prototype` function, which is truthy and is returned as the token. The model's `Lookup` gives `''` for such a name, so `Authenticate` reports the missing parameter.
- Request parts hold string values only. Array or object values from a parsed query string are not modelled, and neither is a `null` request.
- Passport plumbing (`Strategy.call`, `util.inherits`, index.js:36, 46) and the real `this.error` / `this.fail` / `this.success` are framework glue. The model returns an `Outcome` instead.
- The wall clock is the parameter `now`. Asynchronous callback scheduling is not modelled: each callback becomes a returned value.
- The internals of the application's `verify` callback are application code. It is an arbitrary function from profile to answer.
- Numbers are unbounded integers. This is exact for timestamps: every time value the `Date` range admits is below 2^53, so the floating-point results of `parseInt` and of `1000 *` agree with the integer ones there. Out-of-range values are Invalid Dates in both.
- Strategy.GoogleIdTokenStrategy.constructor: a `null` or `undefined` options argument, which throws in the code, is outside the model.
- Validation.AsWrittenAcceptsTokenWithoutExp: in the as-written model the profile passed on has `exp` absent where the code has an Invalid Date object.

## Findings

| source | as written | input that shows it | evidently intended | confidence | as-written member | corrected member |
|---|---|---|---|---|---|---|
| index.js:120-125 | `profile.exp` is always a `Date` object, which is truthy even when invalid, and `now > ` an Invalid Date is false | token-info body `{"email":"something"}` (no `exp`), or an `exp` that is not a number | reject with 'profile.exp and profile.email must be defined in token info response' (test/index.js:180-193) | not executed | `Validation.AsWrittenAcceptsTokenWithoutExp` | `Validation.MissingClaimsCheckedFirst` |
| index.js:115-121 | the `catch` block calls back without returning, so a second callback follows with the missing-claims message | body `body`, which `JSON.parse` rejects | exactly one callback, 'Could not parse response: body' (test/index.js:167-178) | not executed | `Validation.AsWrittenCallsBackTwice` | `Validation.ParseFailureReportsBody` |
