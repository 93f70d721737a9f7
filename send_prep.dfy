/**
 * The preparation step of the service's send endpoint: the method is
 * normalised, the variables of the chosen environment are looked up, and the
 * URL and every header and query parameter value are substituted. Keys are
 * never touched.
 */
module SendPrep {
  import opened Wrappers
  import opened Text
  import opened Dict
  import opened Json
  import opened Substitution

  /** The request body of the send endpoint, as far as preparation reads it. */
  datatype SendRequest = SendRequest(
    verb: string,
    url: string,
    headers: Dict<string>,
    params: Dict<string>,
    environmentId: Option<int>)

  /** What is handed to the HTTP client. */
  datatype Prepared = Prepared(verb: string, url: string, headers: Dict<string>, params: Dict<string>)

  /** `(method or "GET").upper()`. */
  function NormalizeMethod(m: string): (r: string)
    ensures r != [] && IsUpper(r)
    ensures m == [] ==> r == "GET"
    ensures m != [] ==> r == ToUpper(m)
  {
    if m == [] then "GET" else ToUpperIsUpper(m); ToUpper(m)
  }

  /** A normalised method is its own normal form. */
  lemma NormalizeMethodIdempotent(m: string)
    ensures NormalizeMethod(NormalizeMethod(m)) == NormalizeMethod(m)
  {
    ToUpperIsUpper(NormalizeMethod(m));
  }

  /**
   * The variables in force: those of the stored environment with the given
   * id, read from its variables column (`None` is a NULL column) by `loads`,
   * which stands for `json.loads` (`None` = it raises). An empty column is
   * read as `{}`, the empty mapping.
   */
  function ResolveVars(envId: Option<int>, stored: map<int, Option<string>>,
                       loads: string -> Option<Dict<string>>): (vars: Dict<string>)
    ensures envId.None? ==> vars == []
    ensures envId.Some? && envId.value !in stored ==> vars == []
    ensures envId.Some? && envId.value in stored && stored[envId.value] in {None, Some("")} ==> vars == []
    ensures envId.Some? && envId.value in stored && stored[envId.value].Some? && stored[envId.value].value != ""
            ==> vars == loads(stored[envId.value].value).GetOr([])
  {
    if envId.None? || envId.value !in stored then []
    else
      var column := stored[envId.value];
      if column.None? || column.value == "" then []
      else loads(column.value).GetOr([])
  }

  /** Substitutes one string value. */
  function Fill(vars: Dict<string>): string -> string {
    s => Substitute(s, vars)
  }

  /** Lines 76-89 of the send endpoint. */
  function Prepare(req: SendRequest, stored: map<int, Option<string>>,
                   loads: string -> Option<Dict<string>>): (p: Prepared)
    ensures p.verb == NormalizeMethod(req.verb)
    ensures Keys(p.headers) == Keys(req.headers) && Keys(p.params) == Keys(req.params)
    ensures var vars := ResolveVars(req.environmentId, stored, loads);
            && p.url == Substitute(req.url, vars)
            && (forall i :: 0 <= i < |req.headers| ==> p.headers[i].1 == Substitute(req.headers[i].1, vars))
            && (forall i :: 0 <= i < |req.params| ==> p.params[i].1 == Substitute(req.params[i].1, vars))
  {
    var vars := ResolveVars(req.environmentId, stored, loads);
    Prepared(NormalizeMethod(req.verb), Substitute(req.url, vars),
             MapValues(req.headers, Fill(vars)), MapValues(req.params, Fill(vars)))
  }

  /** A header (or parameter) present in the request is present after preparation, with its value substituted. */
  lemma PreparedLookup(d: Dict<string>, vars: Dict<string>, k: string)
    ensures Lookup(MapValues(d, Fill(vars)), k).None? <==> Lookup(d, k).None?
    ensures Lookup(d, k).Some? ==> Lookup(MapValues(d, Fill(vars)), k) == Some(Substitute(Lookup(d, k).value, vars))
  {
    MapValuesLookup(d, Fill(vars), k);
  }

  /** With no environment, or one that is missing or has no variables, nothing is substituted. */
  lemma NoEnvironmentNoChange(req: SendRequest, stored: map<int, Option<string>>,
                              loads: string -> Option<Dict<string>>)
    requires ResolveVars(req.environmentId, stored, loads) == []
    ensures var p := Prepare(req, stored, loads);
            p.url == req.url && p.headers == req.headers && p.params == req.params
  {
    var p := Prepare(req, stored, loads);
    NoVarsIdentity(req.url);
    forall i | 0 <= i < |req.headers| ensures p.headers[i] == req.headers[i] {
      NoVarsIdentity(req.headers[i].1);
    }
    forall i | 0 <= i < |req.params| ensures p.params[i] == req.params[i] {
      NoVarsIdentity(req.params[i].1);
    }
  }
}
