/**
 * The token locator: finds the id token in an incoming request by looking
 * the parameter name up in the body, then the query string, then the route
 * parameters.
 */
module TokenLocator {
  import opened Wrappers

  /** The parts of an Express request the locator reads; `None` is a part the request lacks. */
  datatype Request = Request(
    body: Option<map<string, string>>,
    query: Option<map<string, string>>,
    params: Option<map<string, string>>)

  /** `(part || {})[name]`, with an undefined value read as the falsy `''`. */
  function Lookup(part: Option<map<string, string>>, name: string): string {
    if part.Some? && name in part.value then part.value[name] else ""
  }

  /** True when `part` holds `value` under `name`. */
  predicate Holds(part: Option<map<string, string>>, name: string, value: string) {
    part.Some? && name in part.value && part.value[name] == value
  }

  /**
   * `paramFromRequest(req, name)`. The result is empty exactly when no part
   * holds a truthy value under `name`, and otherwise it is a value that one
   * of the parts holds under `name`.
   */
  function ParamFromRequest(req: Request, name: string): (r: string)
    ensures r == "" <==> Lookup(req.body, name) == "" && Lookup(req.query, name) == "" && Lookup(req.params, name) == ""
    ensures r != "" ==> Holds(req.body, name, r) || Holds(req.query, name, r) || Holds(req.params, name, r)
  {
    var body := Lookup(req.body, name);
    var query := Lookup(req.query, name);
    var params := Lookup(req.params, name);
    if body != "" then body
    else if query != "" then query
    else params
  }

  /** Reference definition of the precedence policy: the first non-empty candidate, or `''`. */
  function FirstNonEmpty(candidates: seq<string>): string {
    if candidates == [] then ""
    else if candidates[0] != "" then candidates[0]
    else FirstNonEmpty(candidates[1..])
  }

  /** The locator follows the precedence body, then query, then route parameters. */
  lemma ParamPrecedence(req: Request, name: string)
    ensures ParamFromRequest(req, name)
         == FirstNonEmpty([Lookup(req.body, name), Lookup(req.query, name), Lookup(req.params, name)])
  {
    var c := [Lookup(req.body, name), Lookup(req.query, name), Lookup(req.params, name)];
    assert c[1..][1..] == [c[2]];
    assert FirstNonEmpty([c[2]]) == c[2] by { assert [c[2]][1..] == []; }
    assert FirstNonEmpty(c[1..]) == if c[1] != "" then c[1] else c[2];
  }

  /** A truthy body value wins, whatever the query string and route parameters hold. */
  lemma BodyOverridesQueryAndParams(req: Request, name: string, value: string, query': Option<map<string, string>>, params': Option<map<string, string>>)
    requires value != "" && Holds(req.body, name, value)
    ensures ParamFromRequest(req.(query := query', params := params'), name) == value
  {
  }

  /** Without a truthy body value, a truthy query value wins, whatever the route parameters hold. */
  lemma QueryOverridesParams(req: Request, name: string, value: string, params': Option<map<string, string>>)
    requires Lookup(req.body, name) == "" && value != "" && Holds(req.query, name, value)
    ensures ParamFromRequest(req.(params := params'), name) == value
  {
  }

  /** A request with none of the three parts yields the empty string. */
  lemma EmptyRequest(name: string)
    ensures ParamFromRequest(Request(None, None, None), name) == ""
  {
  }
}
