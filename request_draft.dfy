/**
 * The request builder of the frontend: the JSON draft gate, the payload sent
 * to `/send` and `/curl`, the payloads of "save request" and "create
 * environment", loading a saved request back into the builder, the status
 * badge of a history entry and the label of the selected environment.
 */
module RequestDraft {
  import opened Wrappers
  import opened Text
  import opened Dict
  import opened Json
  import opened KvRows
  import opened ServiceRecords

  /** The builder's editable state. `selectedEnvId` is the value of the environment selector ("" = none). */
  datatype Draft = Draft(
    verb: string,
    url: string,
    selectedEnvId: string,
    headerRows: seq<Row>,
    paramRows: seq<Row>,
    bodyText: string)

  /**
   * `safeParseJson(label, text)`: blank text (after trimming, with `null` read as
   * "") is the empty object; otherwise `JSON.parse` of the trimmed text, or an
   * error naming the field. `parse` stands for `JSON.parse` (None = it throws).
   */
  function SafeParseJson(fieldLabel: string, text: Option<string>, parse: string -> Option<Json>): (r: Result<Json>)
    ensures Trim(text.GetOr("")) == "" ==> r == Ok(EmptyObject)
    ensures Trim(text.GetOr("")) != "" ==> (r.Ok? <==> parse(Trim(text.GetOr(""))).Some?)
    ensures r.Ok? && Trim(text.GetOr("")) != "" ==> parse(Trim(text.GetOr(""))) == Some(r.value)
    ensures r.Err? ==> r.error == fieldLabel + " must be valid JSON"
  {
    var t := Trim(text.GetOr(""));
    if t == "" then Ok(EmptyObject)
    else match parse(t)
      case Some(v) => Ok(v)
      case None => Err(fieldLabel + " must be valid JSON")
  }

  /** Missing, empty or whitespace-only drafts are accepted as `{}`, whatever the parser does. */
  lemma BlankDraftIsEmptyObject(fieldLabel: string, text: Option<string>, parse: string -> Option<Json>)
    requires text.None? || AllWhitespace(text.value)
    ensures SafeParseJson(fieldLabel, text, parse) == Ok(EmptyObject)
  {
    TrimEmptyIff(text.GetOr(""));
  }

  /** A draft fails exactly when it has non-whitespace text the parser rejects, and the error starts with the label. */
  lemma DraftFailureNamesField(fieldLabel: string, text: string, parse: string -> Option<Json>)
    ensures SafeParseJson(fieldLabel, Some(text), parse).Err? <==> !AllWhitespace(text) && parse(Trim(text)).None?
    ensures SafeParseJson(fieldLabel, Some(text), parse).Err? ==>
              SafeParseJson(fieldLabel, Some(text), parse).error[..|fieldLabel|] == fieldLabel
  {
    TrimEmptyIff(text);
  }

  /** The methods whose body is sent: POST, PUT and PATCH. */
  predicate IsBodyMethod(m: string) {
    m == "POST" || m == "PUT" || m == "PATCH"
  }

  /**
   * `selectedEnvId ? Number(selectedEnvId) : null` as it reaches the wire: no
   * selection is `null`, and a value `Number` cannot read (NaN) is serialised as `null` too.
   */
  function EnvironmentId(sel: string): (r: Option<int>)
    ensures sel == "" ==> r.None?
    ensures r.Some? ==> r.value >= 0
  {
    if sel == "" then None
    else match ParseDecimal(sel)
      case Some(n) => Some(n)
      case None => None
  }

  /** Selecting an environment (its id rendered by the selector) sends exactly that id. */
  lemma SelectedIdIsSent(id: nat)
    ensures EnvironmentId(NatToDecimal(id)) == Some(id)
  {
    DecimalRoundTrip(id);
  }

  /** The request as posted to `/send` and `/curl`. */
  datatype Payload = Payload(
    verb: string,
    url: string,
    headers: Dict<string>,
    params: Dict<string>,
    body: Json,
    environmentId: Option<int>)

  /** A network call an action makes: which endpoint it posts to and with what. */
  datatype Post<P> = Post(endpoint: string, payload: P)

  /** The name the body draft's parse error carries. */
  const BodyLabel: string := "Body"

  /** `send()` up to its network call: the payload it posts, or the validation error that stops it first. */
  function SendStep(d: Draft, parse: string -> Option<Json>): Result<Post<Payload>> {
    var headersObj := RowsToDict(d.headerRows);
    var paramsObj := RowsToDict(d.paramRows);
    match SafeParseJson(BodyLabel, Some(d.bodyText), parse)
    case Err(e) => Err(e)
    case Ok(v) =>
      Ok(Post("/send", Payload(d.verb, d.url, headersObj, paramsObj,
                                if IsBodyMethod(d.verb) then v else JNull,
                                EnvironmentId(d.selectedEnvId))))
  }

  /** `buildCurl()` up to its network call; it assembles its payload separately from `send()`. */
  function CurlStep(d: Draft, parse: string -> Option<Json>): Result<Post<Payload>> {
    var headersObj := RowsToDict(d.headerRows);
    var paramsObj := RowsToDict(d.paramRows);
    match SafeParseJson(BodyLabel, Some(d.bodyText), parse)
    case Err(e) => Err(e)
    case Ok(v) =>
      Ok(Post("/curl", Payload(d.verb, d.url, headersObj, paramsObj,
                                if IsBodyMethod(d.verb) then v else JNull,
                                EnvironmentId(d.selectedEnvId))))
  }

  /** Send and cURL generation fail together with the same error, or post the same payload. */
  lemma SendAndCurlAgree(d: Draft, parse: string -> Option<Json>)
    ensures SendStep(d, parse).Err? <==> CurlStep(d, parse).Err?
    ensures SendStep(d, parse).Err? ==> SendStep(d, parse).error == CurlStep(d, parse).error
    ensures SendStep(d, parse).Ok? ==>
              && SendStep(d, parse).value.payload == CurlStep(d, parse).value.payload
              && SendStep(d, parse).value.endpoint == "/send"
              && CurlStep(d, parse).value.endpoint == "/curl"
  {
  }

  /** An invalid body draft stops `send()` with the parser's error. */
  lemma SendStepErr(d: Draft, parse: string -> Option<Json>, e: string)
    requires SafeParseJson(BodyLabel, Some(d.bodyText), parse) == Err(e)
    ensures SendStep(d, parse) == Err(e)
  {
  }

  /** A valid body draft makes `send()` post its payload. */
  lemma SendStepOk(d: Draft, parse: string -> Option<Json>, v: Json)
    requires SafeParseJson(BodyLabel, Some(d.bodyText), parse) == Ok(v)
    ensures SendStep(d, parse) == Ok(Post("/send", Payload(d.verb, d.url, RowsToDict(d.headerRows), RowsToDict(d.paramRows),
                                                           if IsBodyMethod(d.verb) then v else JNull, EnvironmentId(d.selectedEnvId))))
  {
  }

  /**
   * The wire payload's rules: the call is made iff the body draft is valid; the
   * body is sent only for POST, PUT and PATCH (and is `null` otherwise); the
   * environment id is `null` without a selection and the id of the selected one otherwise.
   */
  lemma PayloadRules(d: Draft, parse: string -> Option<Json>)
    ensures SendStep(d, parse).Err? <==> SafeParseJson(BodyLabel, Some(d.bodyText), parse).Err?
    ensures SendStep(d, parse).Err? ==> SendStep(d, parse).error == BodyLabel + " must be valid JSON"
    ensures SendStep(d, parse).Ok? ==>
              var p := SendStep(d, parse).value.payload;
              && p.verb == d.verb && p.url == d.url
              && p.headers == RowsToDict(d.headerRows) && p.params == RowsToDict(d.paramRows)
              && (!IsBodyMethod(d.verb) ==> p.body == JNull)
              && (IsBodyMethod(d.verb) ==> p.body == SafeParseJson(BodyLabel, Some(d.bodyText), parse).value)
              && p.environmentId == EnvironmentId(d.selectedEnvId)
  {
    match SafeParseJson(BodyLabel, Some(d.bodyText), parse)
    case Err(e) =>
      SendStepErr(d, parse, e);
    case Ok(v) =>
      SendStepOk(d, parse, v);
  }

  /** The body of `POST /requests`. */
  datatype SavePayload = SavePayload(name: string, verb: string, url: string, headers: Dict<string>, body: Json)

  /**
   * `saveCurrent()` up to its network call: the name defaults to the URL when the
   * trimmed name is blank, and the body is the parsed draft whatever the method.
   */
  function SaveStep(d: Draft, savingName: string, parse: string -> Option<Json>): (r: Result<Post<SavePayload>>)
    ensures r.Err? <==> SafeParseJson(BodyLabel, Some(d.bodyText), parse).Err?
    ensures r.Err? ==> r.error == BodyLabel + " must be valid JSON"
    ensures r.Ok? ==> r.value.endpoint == "/requests"
    ensures r.Ok? ==> r.value.payload.body == SafeParseJson(BodyLabel, Some(d.bodyText), parse).value
    ensures r.Ok? ==> r.value.payload.headers == RowsToDict(d.headerRows)
    ensures r.Ok? ==> r.value.payload.verb == d.verb && r.value.payload.url == d.url
    ensures r.Ok? && !AllWhitespace(savingName) ==> r.value.payload.name == Trim(savingName)
    ensures r.Ok? && AllWhitespace(savingName) ==> r.value.payload.name == d.url
  {
    TrimEmptyIff(savingName);
    var headersObj := RowsToDict(d.headerRows);
    match SafeParseJson(BodyLabel, Some(d.bodyText), parse)
    case Err(e) => Err(e)
    case Ok(v) =>
      var trimmed := Trim(savingName);
      var name := if trimmed != "" then trimmed else d.url;
      Ok(Post("/requests", SavePayload(name, d.verb, d.url, headersObj, v)))
  }

  const VariablesLabel: string := "Environment variables"

  /** The body of `POST /environments`. */
  datatype EnvPayload = EnvPayload(name: string, variables: Json)

  /**
   * `createEnv()` up to its network call: the variables draft is checked first,
   * then the trimmed name must be non-blank.
   */
  function CreateEnvStep(envName: string, envVarsText: string, parse: string -> Option<Json>): (r: Result<Post<EnvPayload>>)
    ensures var vars := SafeParseJson(VariablesLabel, Some(envVarsText), parse);
            && (vars.Err? ==> r == Err(VariablesLabel + " must be valid JSON"))
            && (vars.Ok? && AllWhitespace(envName) ==> r == Err("Environment name is required"))
            && (vars.Ok? && !AllWhitespace(envName) ==>
                  r == Ok(Post("/environments", EnvPayload(Trim(envName), vars.value))))
  {
    TrimEmptyIff(envName);
    match SafeParseJson(VariablesLabel, Some(envVarsText), parse)
    case Err(e) => Err(e)
    case Ok(vars) =>
      var name := Trim(envName);
      if name == "" then Err("Environment name is required")
      else Ok(Post("/environments", EnvPayload(name, vars)))
  }

  /**
   * `loadIntoBuilder(r)`: method (upper-cased, default GET), URL, header rows and
   * body text come from the saved request; params and the selected environment
   * stay as they were. `stringify` stands for `JSON.stringify(v, null, 2)`.
   */
  function LoadIntoBuilder(d: Draft, r: SavedRequest, stringify: Json -> string): (d': Draft)
    ensures d'.paramRows == d.paramRows && d'.selectedEnvId == d.selectedEnvId
    ensures d'.url == r.url
    ensures d'.verb == if r.verb == "" then "GET" else ToUpper(r.verb)
    ensures d'.headerRows == ObjectToRows(if Truthy(r.headers) then r.headers else EmptyObject)
    ensures d'.headerRows != []
    ensures d'.bodyText == stringify(if Truthy(r.body) then r.body else EmptyObject)
  {
    d.(verb := ToUpper(if r.verb != "" then r.verb else "GET"),
       url := r.url,
       headerRows := ObjectToRows(if Truthy(r.headers) then r.headers else EmptyObject),
       bodyText := stringify(if Truthy(r.body) then r.body else EmptyObject))
  }

  /**
   * Saving and loading back: a saved request that holds what `saveCurrent` posted
   * (the service stores the method upper-cased and the headers as sent) restores
   * the builder's method, URL and header mapping.
   */
  lemma SaveThenLoad(d: Draft, other: Draft, savingName: string, parse: string -> Option<Json>,
                     id: int, stringify: Json -> string)
    requires SaveStep(d, savingName, parse).Ok?
    requires d.verb != "" && IsUpper(d.verb)
    ensures var p := SaveStep(d, savingName, parse).value.payload;
            var saved := SavedRequest(id, p.name, ToUpper(p.verb), p.url, MappingToJson(p.headers), p.body);
            var d' := LoadIntoBuilder(other, saved, stringify);
            && d'.verb == d.verb && d'.url == d.url
            && RowsToDict(d'.headerRows) == RowsToDict(d.headerRows)
            && d'.paramRows == other.paramRows
  {
    var p := SaveStep(d, savingName, parse).value.payload;
    assert p.verb == d.verb && p.url == d.url && p.headers == RowsToDict(d.headerRows);
    ToUpperIsUpper(d.verb);
    var saved := SavedRequest(id, p.name, ToUpper(p.verb), p.url, MappingToJson(p.headers), p.body);
    var d' := LoadIntoBuilder(other, saved, stringify);
    assert Truthy(saved.headers);
    assert d'.headerRows == ObjectToRows(MappingToJson(RowsToDict(d.headerRows)));
    RoundTrip(d.headerRows);
  }

  /** Colour classes of the status badge. */
  datatype Tone = Neutral | Success | Redirect | ClientError | ServerError

  /** What the badge shows: a dash, or the status code itself. */
  datatype BadgeText = Dash | Code(code: int)

  datatype Badge = Badge(tone: Tone, bg: string, fg: string, text: BadgeText)

  /** The background and foreground colours of each colour class. */
  function ToneColours(t: Tone): (string, string) {
    match t
    case Neutral => ("#1f2937", "#e5e7eb")
    case Success => ("#064e3b", "#d1fae5")
    case Redirect => ("#1d4ed8", "#dbeafe")
    case ClientError => ("#9a3412", "#ffedd5")
    case ServerError => ("#991b1b", "#fee2e2")
  }

  /** No two colour classes share their colours, so the colours tell the class. */
  lemma ToneColoursDistinct(t: Tone, u: Tone)
    ensures ToneColours(t) == ToneColours(u) <==> t == u
  {
    if ToneColours(t) == ToneColours(u) {
      assert ToneColours(t).0 == ToneColours(u).0;
      assert ToneColours(t).0[1] == ToneColours(u).0[1];
      assert ToneColours(t).0[2] == ToneColours(u).0[2];
    }
  }

  /** `statusBadge(code)`; `None` is a missing (`null`) status code. */
  function StatusBadge(code: Option<int>): (b: Badge)
    ensures (b.bg, b.fg) == ToneColours(b.tone)
    ensures (code.None? || code.value == 0) <==> b.text == Dash
    ensures b.tone == Neutral <==> b.text == Dash
    ensures code.Some? && code.value != 0 ==> b.text == Code(code.value)
    ensures code.Some? && 200 <= code.value < 300 <==> b.tone == Success
    ensures code.Some? && 300 <= code.value < 400 <==> b.tone == Redirect
    ensures code.Some? && 400 <= code.value < 500 <==> b.tone == ClientError
    ensures b.tone == ServerError <==> code.Some? && code.value != 0 && !(200 <= code.value < 500)
  {
    if code.None? || code.value == 0 then Badge(Neutral, "#1f2937", "#e5e7eb", Dash)
    else
      var c := code.value;
      if 200 <= c < 300 then Badge(Success, "#064e3b", "#d1fae5", Code(c))
      else if 300 <= c < 400 then Badge(Redirect, "#1d4ed8", "#dbeafe", Code(c))
      else if 400 <= c < 500 then Badge(ClientError, "#9a3412", "#ffedd5", Code(c))
      else Badge(ServerError, "#991b1b", "#fee2e2", Code(c))
  }

  /** The first environment whose id reads as `sel`, as `envs.find(e => String(e.id) === String(sel))`. */
  function FindEnvironment(envs: seq<EnvironmentRecord>, sel: string): (r: Option<EnvironmentRecord>)
    ensures r.Some? ==> r.value in envs && IntToDecimal(r.value.id) == sel
    ensures r.None? ==> forall e :: e in envs ==> IntToDecimal(e.id) != sel
  {
    if envs == [] then None
    else if IntToDecimal(envs[0].id) == sel then Some(envs[0])
    else FindEnvironment(envs[1..], sel)
  }

  /** `find` returns the first match: no environment before it has the selected id. */
  lemma {:induction false} FindEnvironmentFirst(envs: seq<EnvironmentRecord>, sel: string)
    requires FindEnvironment(envs, sel).Some?
    ensures exists i :: && 0 <= i < |envs| && envs[i] == FindEnvironment(envs, sel).value
                        && forall j :: 0 <= j < i ==> IntToDecimal(envs[j].id) != sel
  {
    if IntToDecimal(envs[0].id) != sel {
      var rest := envs[1..];
      FindEnvironmentFirst(rest, sel);
      var i :| 0 <= i < |rest| && rest[i] == FindEnvironment(rest, sel).value
               && forall j :: 0 <= j < i ==> IntToDecimal(rest[j].id) != sel;
      assert envs[i + 1] == FindEnvironment(envs, sel).value;
      forall j | 0 <= j < i + 1 ensures IntToDecimal(envs[j].id) != sel {
        if j > 0 { assert envs[j] == rest[j - 1]; }
      }
    } else {
      assert envs[0] == FindEnvironment(envs, sel).value;
    }
  }

  /** The "Env:" label: "none" without a selection, the environment's name, or "—" when it is gone or unnamed. */
  function SelectedEnvLabel(envs: seq<EnvironmentRecord>, sel: string): (shown: string)
    ensures sel == "" ==> shown == "none"
    ensures sel != "" && (forall e :: e in envs ==> IntToDecimal(e.id) != sel) ==> shown == "—"
    ensures sel != "" && shown != "—" ==> exists e :: e in envs && IntToDecimal(e.id) == sel && e.name == shown
    ensures sel != "" && FindEnvironment(envs, sel).Some? ==>
              var e := FindEnvironment(envs, sel).value;
              (e.name != "" ==> shown == e.name) && (e.name == "" ==> shown == "—")
  {
    if sel == "" then "none"
    else match FindEnvironment(envs, sel)
      case None => "—"
      case Some(e) => if e.name != "" then e.name else "—"
  }
}
