/**
 * Export and import of saved requests and environments. Import turns a
 * parsed document into the ordered list of create calls it issues:
 * environments first, then requests, each in document order, with invalid
 * entries skipped.
 */
module ImportExport {
  import opened Wrappers
  import opened Text
  import opened Dict
  import opened Json
  import opened ServiceRecords

  /** A create call against the service: `POST /environments` or `POST /requests`. */
  datatype CreateCall =
    | CreateEnvironment(name: string, variables: Json)
    | CreateRequest(name: string, verb: string, url: Json, headers: Json, body: Json)

  /** What one loop iteration does with an entry: nothing, one call, or a `TypeError` that ends the import. */
  datatype Step = Skip | Issue(call: CreateCall) | Throw

  /** A truthy value that is not a string: calling a string method on it throws a `TypeError`. */
  predicate ThrowsOnString(v: Option<Json>) {
    v.Some? && Truthy(v.value) && !v.value.JStr?
  }

  /** `(v || "").trim()`; a truthy value that is not a string has no `trim` and throws (None). */
  function TrimmedText(v: Option<Json>): (r: Option<string>)
    ensures r.None? <==> ThrowsOnString(v)
    ensures v.None? || !Truthy(v.value) ==> r == Some("")
    ensures v.Some? && v.value.JStr? ==> r == Some(Trim(v.value.s))
    ensures r.Some? ==> IsTrimmed(r.value)
  {
    if v.None? || !Truthy(v.value) then assert Trim("") == ""; Some("")
    else if v.value.JStr? then Some(Trim(v.value.s))
    else None
  }

  /** `(v || "GET").toUpperCase()`; a truthy value that is not a string throws (None). */
  function UpperMethod(v: Option<Json>): (r: Option<string>)
    ensures r.None? <==> ThrowsOnString(v)
    ensures v.None? || !Truthy(v.value) ==> r == Some("GET")
    ensures v.Some? && v.value.JStr? && v.value.s != "" ==> r == Some(ToUpper(v.value.s))
    ensures r.Some? ==> r.value != "" && IsUpper(r.value)
  {
    if v.None? || !Truthy(v.value) then Some("GET")
    else if v.value.JStr? then ToUpperIsUpper(v.value.s); Some(ToUpper(v.value.s))
    else None
  }

  /** `v && typeof v === "object" ? v : {}`. */
  function ObjectOr(v: Option<Json>): (r: Json)
    ensures v.Some? && IsObject(v.value) ==> r == v.value
    ensures !(v.Some? && IsObject(v.value)) ==> r == EmptyObject
    ensures IsObject(r)
  {
    if v.Some? && IsObject(v.value) then v.value else EmptyObject
  }

  /** One iteration of the environment loop. */
  function EnvStep(e: Json): Step {
    match TrimmedText(Get(e, "name"))
    case None => Throw
    case Some(name) =>
      if name == "" then Skip else Issue(CreateEnvironment(name, ObjectOr(Get(e, "variables"))))
  }

  /** One iteration of the request loop: name and method are read (and may throw) before the skip test. */
  function RequestStep(r: Json): Step {
    match TrimmedText(Get(r, "name"))
    case None => Throw
    case Some(name) =>
      match UpperMethod(Get(r, "method"))
      case None => Throw
      case Some(verb) =>
        var url := Get(r, "url");
        if name == "" || url.None? || !Truthy(url.value) then Skip
        else Issue(CreateRequest(name, verb, url.value, ObjectOr(Get(r, "headers")), ObjectOr(Get(r, "body"))))
  }

  /** A call that the environment loop can issue. */
  predicate ValidEnvCall(c: CreateCall) {
    c.CreateEnvironment? && c.name != "" && IsTrimmed(c.name) && IsObject(c.variables)
  }

  /** A call that the request loop can issue. */
  predicate ValidRequestCall(c: CreateCall) {
    && c.CreateRequest? && c.name != "" && IsTrimmed(c.name)
    && c.verb != "" && IsUpper(c.verb) && Truthy(c.url)
    && IsObject(c.headers) && IsObject(c.body)
  }

  lemma EnvStepIssuesValid(e: Json)
    ensures EnvStep(e).Issue? ==> ValidEnvCall(EnvStep(e).call)
  {
  }

  lemma RequestStepIssuesValid(r: Json)
    ensures RequestStep(r).Issue? ==> ValidRequestCall(RequestStep(r).call)
  {
  }

  /** A name that reads as blank: missing, falsy, or a string of whitespace only. */
  predicate BlankText(v: Option<Json>) {
    v.None? || !Truthy(v.value) || (v.value.JStr? && AllWhitespace(v.value.s))
  }

  /**
   * An environment entry throws exactly when its name is a truthy non-string,
   * is skipped exactly when its name is blank, and otherwise creates the
   * environment under the trimmed name with its variables, `{}` when they are not an object.
   */
  lemma EnvStepRules(e: Json)
    ensures EnvStep(e) == Throw <==> ThrowsOnString(Get(e, "name"))
    ensures EnvStep(e) == Skip <==> BlankText(Get(e, "name"))
    ensures EnvStep(e).Issue? ==>
              && Get(e, "name").Some? && Get(e, "name").value.JStr?
              && EnvStep(e) == Issue(CreateEnvironment(Trim(Get(e, "name").value.s), ObjectOr(Get(e, "variables"))))
  {
    var n := Get(e, "name");
    if n.Some? && n.value.JStr? {
      TrimEmptyIff(n.value.s);
    }
  }

  /**
   * A request entry throws exactly when its name or its method is a truthy
   * non-string; otherwise it is skipped exactly when its name is blank or its
   * URL is missing or falsy, and creates the request with the trimmed name,
   * the upper-cased method and the URL as they are otherwise.
   */
  lemma RequestStepRules(r: Json)
    ensures RequestStep(r) == Throw <==> ThrowsOnString(Get(r, "name")) || ThrowsOnString(Get(r, "method"))
    ensures RequestStep(r) == Skip <==>
              && !ThrowsOnString(Get(r, "name")) && !ThrowsOnString(Get(r, "method"))
              && (BlankText(Get(r, "name")) || Get(r, "url").None? || !Truthy(Get(r, "url").value))
    ensures RequestStep(r).Issue? ==>
              && Get(r, "name").Some? && Get(r, "name").value.JStr? && Get(r, "url").Some?
              && UpperMethod(Get(r, "method")).Some?
              && RequestStep(r) == Issue(CreateRequest(Trim(Get(r, "name").value.s), UpperMethod(Get(r, "method")).value,
                                                       Get(r, "url").value, ObjectOr(Get(r, "headers")), ObjectOr(Get(r, "body"))))
  {
    var n := Get(r, "name");
    if n.Some? && n.value.JStr? {
      TrimEmptyIff(n.value.s);
    }
  }

  /** The calls a loop issues, in order, and whether a `TypeError` cut it short. */
  datatype Plan = Plan(calls: seq<CreateCall>, aborted: bool)

  /** A loop over `entries` with the iteration `step`, as a fold from the first entry to the last. */
  function PlanOf(entries: seq<Json>, step: Json -> Step): (p: Plan)
    ensures |p.calls| <= |entries|
  {
    if entries == [] then Plan([], false)
    else
      var p := PlanOf(entries[..|entries| - 1], step);
      if p.aborted then p
      else match step(entries[|entries| - 1])
        case Skip => p
        case Issue(c) => Plan(p.calls + [c], false)
        case Throw => Plan(p.calls, true)
  }

  /** Running one plan after another: the second runs only if the first was not cut short. */
  function Then(p: Plan, q: Plan): Plan {
    if p.aborted then p else Plan(p.calls + q.calls, q.aborted)
  }

  /** The whole import: the document itself being `null` throws before any call. */
  function ImportPlan(doc: Json): Plan {
    if doc.JNull? then Plan([], true)
    else
      Then(PlanOf(ArrayOrEmpty(Get(doc, "environments")), EnvStep),
           PlanOf(ArrayOrEmpty(Get(doc, "requests")), RequestStep))
  }

  lemma PlanOfSnoc(entries: seq<Json>, x: Json, step: Json -> Step)
    ensures PlanOf(entries + [x], step) == Then(PlanOf(entries, step), PlanOf([x], step))
  {
    assert (entries + [x])[..|entries|] == entries;
  }

  /** Document order: the calls for `a + b` are those for `a` followed by those for `b`. */
  lemma {:induction false} PlanOfConcat(a: seq<Json>, b: seq<Json>, step: Json -> Step)
    ensures PlanOf(a + b, step) == Then(PlanOf(a, step), PlanOf(b, step))
  {
    if b == [] {
      assert a + b == a;
    } else {
      var b' := b[..|b| - 1];
      var y := b[|b| - 1];
      PlanOfConcat(a, b', step);
      assert a + b == (a + b') + [y];
      assert b == b' + [y];
      PlanOfSnoc(a + b', y, step);
      PlanOfSnoc(b', y, step);
    }
  }

  /** Every call comes from an entry, and from nothing but the iteration applied to it. */
  lemma {:induction false} CallsComeFromEntries(entries: seq<Json>, step: Json -> Step)
    ensures forall k :: 0 <= k < |PlanOf(entries, step).calls| ==>
              exists i :: 0 <= i < |entries| && step(entries[i]) == Issue(PlanOf(entries, step).calls[k])
  {
    if entries != [] {
      var front := entries[..|entries| - 1];
      var last := |entries| - 1;
      CallsComeFromEntries(front, step);
      var p := PlanOf(front, step);
      var calls := PlanOf(entries, step).calls;
      assert entries[..last] == front;
      if !p.aborted && step(entries[last]).Issue? {
        assert calls == p.calls + [step(entries[last]).call];
      } else {
        assert calls == p.calls;
      }
      forall k | 0 <= k < |calls|
        ensures exists i :: 0 <= i < |entries| && step(entries[i]) == Issue(calls[k])
      {
        if k < |p.calls| {
          var i :| 0 <= i < |front| && step(front[i]) == Issue(p.calls[k]);
          assert calls[k] == p.calls[k];
          assert front[i] == entries[i];
          assert step(entries[i]) == Issue(calls[k]);
        } else {
          assert step(entries[last]) == Issue(calls[k]);
          assert 0 <= last < |entries|;
        }
      }
    } else {
      assert PlanOf(entries, step).calls == [];
    }
  }

  /**
   * The import issues only well-formed calls, and every environment call comes
   * before every request call.
   */
  lemma ImportPlanShape(doc: Json)
    ensures var calls := ImportPlan(doc).calls;
            forall i, j :: 0 <= i < j < |calls| && calls[j].CreateEnvironment? ==> calls[i].CreateEnvironment?
    ensures forall c :: c in ImportPlan(doc).calls ==> ValidEnvCall(c) || ValidRequestCall(c)
  {
    if !doc.JNull? {
      var es := ArrayOrEmpty(Get(doc, "environments"));
      var rs := ArrayOrEmpty(Get(doc, "requests"));
      var ep := PlanOf(es, EnvStep);
      var rp := PlanOf(rs, RequestStep);
      CallsComeFromEntries(es, EnvStep);
      CallsComeFromEntries(rs, RequestStep);
      forall k | 0 <= k < |ep.calls| ensures ValidEnvCall(ep.calls[k]) {
        var i :| 0 <= i < |es| && EnvStep(es[i]) == Issue(ep.calls[k]);
        EnvStepIssuesValid(es[i]);
      }
      forall k | 0 <= k < |rp.calls| ensures ValidRequestCall(rp.calls[k]) {
        var i :| 0 <= i < |rs| && RequestStep(rs[i]) == Issue(rp.calls[k]);
        RequestStepIssuesValid(rs[i]);
      }
    }
  }

  /** Once an iteration has thrown, later entries change nothing. */
  lemma {:induction false} AbortedStaysAborted(entries: seq<Json>, n: nat, step: Json -> Step)
    requires n <= |entries| && PlanOf(entries[..n], step).aborted
    ensures PlanOf(entries, step) == PlanOf(entries[..n], step)
  {
    if n < |entries| {
      assert entries[..|entries| - 1][..n] == entries[..n];
      AbortedStaysAborted(entries[..|entries| - 1], n, step);
    } else {
      assert entries[..n] == entries;
    }
  }

  /** One of the two `for` loops of `importData`: runs `step` on each entry in turn, stopping at the first that throws. */
  method IssueAll(entries: seq<Json>, step: Json -> Step) returns (calls: seq<CreateCall>, aborted: bool)
    ensures Plan(calls, aborted) == PlanOf(entries, step)
  {
    calls, aborted := [], false;
    var i := 0;
    while i < |entries|
      invariant 0 <= i <= |entries|
      invariant Plan(calls, false) == PlanOf(entries[..i], step)
    {
      PlanOfSnoc(entries[..i], entries[i], step);
      assert entries[..i + 1] == entries[..i] + [entries[i]];
      match step(entries[i]) {
        case Skip =>
        case Issue(c) =>
          calls := calls + [c];
        case Throw =>
          aborted := true;
          AbortedStaysAborted(entries, i + 1, step);
          return;
      }
      i := i + 1;
    }
    assert entries[..i] == entries;
  }

  /** `importData` after the parse: environments first, then requests, each loop in document order. */
  method BuildImportCalls(doc: Json) returns (calls: seq<CreateCall>, aborted: bool)
    ensures Plan(calls, aborted) == ImportPlan(doc)
  {
    if doc.JNull? {
      return [], true;
    }
    var envsIn := ArrayOrEmpty(Get(doc, "environments"));
    var reqsIn := ArrayOrEmpty(Get(doc, "requests"));
    calls, aborted := IssueAll(envsIn, EnvStep);
    if !aborted {
      var reqCalls, reqAborted := IssueAll(reqsIn, RequestStep);
      calls, aborted := calls + reqCalls, reqAborted;
    }
  }

  /** How the service answers an import: the index of the first create call that fails, and whether the final refresh succeeds. */
  datatype Network = Network(firstFailure: Option<nat>, refreshOk: bool)

  /**
   * What an import does: the calls issued, those that succeeded, whether the
   * environment and request lists were re-fetched, and whether "Imported
   * successfully" (rather than "Import failed") is reported.
   */
  datatype ImportOutcome =
    | NoFile
    | Finished(issued: seq<CreateCall>, created: seq<CreateCall>, refreshed: bool, succeeded: bool)

  /** `importData(file)`; `parse` stands for `JSON.parse` (None = it throws). */
  function RunImport(file: Option<string>, parse: string -> Option<Json>, net: Network): (r: ImportOutcome)
    ensures file.None? <==> r.NoFile?
    ensures r.Finished? && parse(file.value).None? ==> r == Finished([], [], false, false)
    ensures r.Finished? && parse(file.value).Some? ==>
              var plan := ImportPlan(parse(file.value).value);
              && r.issued <= plan.calls && r.created <= r.issued
              && |r.issued| - |r.created| <= 1
              && (r.refreshed <==> r.created == plan.calls && !plan.aborted)
              && (r.succeeded <==> r.refreshed && net.refreshOk)
    ensures r.Finished? && parse(file.value).Some? ==>
              var plan := ImportPlan(parse(file.value).value);
              var k := net.firstFailure;
              && (k.Some? && k.value < |plan.calls| ==>
                    r.issued == plan.calls[..k.value + 1] && r.created == plan.calls[..k.value])
              && (k.None? || k.value >= |plan.calls| ==> r.issued == plan.calls && r.created == plan.calls)
  {
    if file.None? then NoFile
    else match parse(file.value)
      case None => Finished([], [], false, false)
      case Some(doc) =>
        var plan := ImportPlan(doc);
        if net.firstFailure.Some? && net.firstFailure.value < |plan.calls| then
          var k := net.firstFailure.value;
          Finished(plan.calls[..k + 1], plan.calls[..k], false, false)
        else if plan.aborted then Finished(plan.calls, plan.calls, false, false)
        else Finished(plan.calls, plan.calls, true, net.refreshOk)
  }

  lemma PlanOfOne(x: Json, step: Json -> Step)
    ensures PlanOf([x], step) == match step(x)
                                 case Skip => Plan([], false)
                                 case Issue(c) => Plan([c], false)
                                 case Throw => Plan([], true)
  {
    assert [x][..0] == [];
  }

  /** A document with an environment entry that has only a name, and a request entry without a URL. */
  const SampleEnv: Json := JObj([("name", JStr("dev"))])
  const SampleRequest: Json := JObj([("name", JStr("ping"))])
  const SampleDoc: Json := JObj([("environments", JArr([SampleEnv])), ("requests", JArr([SampleRequest]))])

  lemma SampleEnvCreated()
    ensures PlanOf([SampleEnv], EnvStep) == Plan([CreateEnvironment("dev", EmptyObject)], false)
  {
    var f := SampleEnv.fields;
    assert f[0] == ("name", JStr("dev"));
    assert Get(SampleEnv, "name") == Some(JStr("dev")) by { LookupEntry(f, 0); }
    assert Get(SampleEnv, "variables").None? by { assert Keys(f) == ["name"]; }
    TrimOfTrimmed("dev");
    PlanOfOne(SampleEnv, EnvStep);
  }

  lemma SampleRequestSkipped()
    ensures PlanOf([SampleRequest], RequestStep) == Plan([], false)
  {
    var f := SampleRequest.fields;
    assert f[0] == ("name", JStr("ping"));
    assert Get(SampleRequest, "name") == Some(JStr("ping")) by { LookupEntry(f, 0); }
    assert Get(SampleRequest, "method").None? && Get(SampleRequest, "url").None? by { assert Keys(f) == ["name"]; }
    TrimOfTrimmed("ping");
    PlanOfOne(SampleRequest, RequestStep);
  }

  /** Importing the sample creates only the environment, then refreshes and reports success. */
  lemma SkipsRequestWithoutUrl(parse: string -> Option<Json>, text: string)
    requires parse(text) == Some(SampleDoc)
    ensures RunImport(Some(text), parse, Network(None, true))
              == Finished([CreateEnvironment("dev", EmptyObject)], [CreateEnvironment("dev", EmptyObject)], true, true)
  {
    var f := SampleDoc.fields;
    assert f[0] == ("environments", JArr([SampleEnv])) && f[1] == ("requests", JArr([SampleRequest]));
    assert Get(SampleDoc, "environments") == Some(JArr([SampleEnv])) by { LookupEntry(f, 0); }
    assert Get(SampleDoc, "requests") == Some(JArr([SampleRequest])) by { LookupEntry(f, 1); }
    SampleEnvCreated();
    SampleRequestSkipped();
    assert ImportPlan(SampleDoc) == Plan([CreateEnvironment("dev", EmptyObject)], false);
  }

  const MetaNote: string := "params are not persisted in backend yet"

  /** An exported request: the saved request's fields followed by a `_meta` note. */
  function ExportedRequest(r: SavedRequest): Json {
    JObj(SavedRequestJson(r).fields + [("_meta", JObj([("note", JStr(MetaNote))]))])
  }

  function EnvsJson(envs: seq<EnvironmentRecord>): (js: seq<Json>)
    ensures |js| == |envs| && forall i :: 0 <= i < |envs| ==> js[i] == EnvironmentJson(envs[i])
  {
    seq(|envs|, i requires 0 <= i < |envs| => EnvironmentJson(envs[i]))
  }

  function RequestsJson(reqs: seq<SavedRequest>): (js: seq<Json>)
    ensures |js| == |reqs| && forall i :: 0 <= i < |reqs| ==> js[i] == ExportedRequest(reqs[i])
  {
    seq(|reqs|, i requires 0 <= i < |reqs| => ExportedRequest(reqs[i]))
  }

  /** The exported document (version 1) for the service's current environments and saved requests. */
  function ExportDocument(exportedAt: string, envs: seq<EnvironmentRecord>, reqs: seq<SavedRequest>): Json {
    JObj([
      ("exported_at", JStr(exportedAt)),
      ("version", JNum(1)),
      ("environments", JArr(EnvsJson(envs))),
      ("requests", JArr(RequestsJson(reqs)))])
  }

  /** The create calls that recreate the given environments. */
  function EnvCreates(envs: seq<EnvironmentRecord>): (cs: seq<CreateCall>)
    ensures |cs| == |envs|
    ensures forall i :: 0 <= i < |envs| ==> cs[i] == CreateEnvironment(envs[i].name, envs[i].variables)
  {
    seq(|envs|, i requires 0 <= i < |envs| => CreateEnvironment(envs[i].name, envs[i].variables))
  }

  /** The create calls that recreate the given saved requests. */
  function RequestCreates(reqs: seq<SavedRequest>): (cs: seq<CreateCall>)
    ensures |cs| == |reqs|
    ensures forall i :: 0 <= i < |reqs| ==>
              cs[i] == CreateRequest(reqs[i].name, reqs[i].verb, JStr(reqs[i].url), reqs[i].headers, reqs[i].body)
  {
    seq(|reqs|, i requires 0 <= i < |reqs| =>
          CreateRequest(reqs[i].name, reqs[i].verb, JStr(reqs[i].url), reqs[i].headers, reqs[i].body))
  }

  /** Environments that import recreates as they are: a trimmed, non-blank name and an object of variables. */
  predicate ReimportableEnv(e: EnvironmentRecord) {
    e.name != "" && IsTrimmed(e.name) && IsObject(e.variables)
  }

  /** Saved requests that import recreates as they are. */
  predicate ReimportableRequest(r: SavedRequest) {
    && r.name != "" && IsTrimmed(r.name) && r.url != ""
    && r.verb != "" && IsUpper(r.verb) && IsObject(r.headers) && IsObject(r.body)
  }

  /** The fields import reads from an exported request. */
  lemma ExportedRequestFields(r: SavedRequest)
    ensures var j := ExportedRequest(r);
            && Get(j, "name") == Some(JStr(r.name)) && Get(j, "method") == Some(JStr(r.verb))
            && Get(j, "url") == Some(JStr(r.url))
            && Get(j, "headers") == Some(r.headers) && Get(j, "body") == Some(r.body)
  {
    var j := ExportedRequest(r);
    var f := j.fields;
    assert f[0].0 == "id" && f[1] == ("name", JStr(r.name)) && f[2] == ("method", JStr(r.verb));
    assert f[3] == ("url", JStr(r.url)) && f[4] == ("headers", r.headers) && f[5] == ("body", r.body);
    assert Get(j, "name") == Some(JStr(r.name)) by { LookupEntry(f, 1); }
    assert Get(j, "method") == Some(JStr(r.verb)) by { LookupEntry(f, 2); }
    assert Get(j, "url") == Some(JStr(r.url)) by { LookupEntry(f, 3); }
    assert Get(j, "headers") == Some(r.headers) by { LookupEntry(f, 4); }
    assert Get(j, "body") == Some(r.body) by { LookupEntry(f, 5); }
  }

  lemma EnvRoundTrip(e: EnvironmentRecord)
    requires ReimportableEnv(e)
    ensures EnvStep(EnvironmentJson(e)) == Issue(CreateEnvironment(e.name, e.variables))
  {
    var j := EnvironmentJson(e);
    var f := j.fields;
    assert f[0].0 == "id" && f[1] == ("name", JStr(e.name)) && f[2] == ("variables", e.variables);
    assert Get(j, "name") == Some(JStr(e.name)) by { LookupEntry(f, 1); }
    assert Get(j, "variables") == Some(e.variables) by { LookupEntry(f, 2); }
    TrimOfTrimmed(e.name);
  }

  /** The step for any entry whose fields hold a re-importable request. */
  lemma RequestStepOf(j: Json, name: string, verb: string, url: string, headers: Json, body: Json)
    requires Get(j, "name") == Some(JStr(name)) && Get(j, "method") == Some(JStr(verb))
    requires Get(j, "url") == Some(JStr(url)) && Get(j, "headers") == Some(headers) && Get(j, "body") == Some(body)
    requires name != "" && IsTrimmed(name) && url != "" && verb != "" && IsUpper(verb)
    requires IsObject(headers) && IsObject(body)
    ensures RequestStep(j) == Issue(CreateRequest(name, verb, JStr(url), headers, body))
  {
    assert TrimmedText(Get(j, "name")) == Some(name) by { TrimOfTrimmed(name); }
    assert UpperMethod(Get(j, "method")) == Some(verb) by { ToUpperIsUpper(verb); }
    assert ObjectOr(Get(j, "headers")) == headers && ObjectOr(Get(j, "body")) == body;
    assert Truthy(JStr(url));
  }

  lemma RequestRoundTrip(r: SavedRequest)
    requires ReimportableRequest(r)
    ensures RequestStep(ExportedRequest(r)) == Issue(CreateRequest(r.name, r.verb, JStr(r.url), r.headers, r.body))
  {
    ExportedRequestFields(r);
    RequestStepOf(ExportedRequest(r), r.name, r.verb, r.url, r.headers, r.body);
  }

  /** A saved request with an empty URL is exported but not re-imported. */
  lemma EmptyUrlIsDropped(r: SavedRequest)
    requires r.url == ""
    ensures RequestStep(ExportedRequest(r)) == Skip
  {
    var j := ExportedRequest(r);
    ExportedRequestFields(r);
    RequestStepRules(j);
    assert !ThrowsOnString(Get(j, "name")) && !ThrowsOnString(Get(j, "method"));
    assert !Truthy(Get(j, "url").value);
  }

  lemma EnvsJsonSnoc(front: seq<EnvironmentRecord>, last: EnvironmentRecord)
    ensures EnvsJson(front + [last]) == EnvsJson(front) + [EnvironmentJson(last)]
  {
  }

  lemma RequestsJsonSnoc(front: seq<SavedRequest>, last: SavedRequest)
    ensures RequestsJson(front + [last]) == RequestsJson(front) + [ExportedRequest(last)]
  {
  }

  lemma EnvCreatesSnoc(front: seq<EnvironmentRecord>, last: EnvironmentRecord)
    ensures EnvCreates(front + [last]) == EnvCreates(front) + [CreateEnvironment(last.name, last.variables)]
  {
  }

  lemma RequestCreatesSnoc(front: seq<SavedRequest>, last: SavedRequest)
    ensures RequestCreates(front + [last])
            == RequestCreates(front) + [CreateRequest(last.name, last.verb, JStr(last.url), last.headers, last.body)]
  {
  }

  lemma {:induction false} EnvsRoundTrip(envs: seq<EnvironmentRecord>)
    requires forall e :: e in envs ==> ReimportableEnv(e)
    ensures PlanOf(EnvsJson(envs), EnvStep) == Plan(EnvCreates(envs), false)
  {
    if envs != [] {
      var front := envs[..|envs| - 1];
      var last := envs[|envs| - 1];
      assert envs == front + [last];
      assert forall e :: e in front ==> e in envs;
      EnvsRoundTrip(front);
      EnvsJsonSnoc(front, last);
      EnvCreatesSnoc(front, last);
      PlanOfSnoc(EnvsJson(front), EnvironmentJson(last), EnvStep);
      assert PlanOf([EnvironmentJson(last)], EnvStep) == Plan([CreateEnvironment(last.name, last.variables)], false) by {
        EnvRoundTrip(last);
        PlanOfOne(EnvironmentJson(last), EnvStep);
      }
    } else {
      assert EnvsJson(envs) == [];
    }
  }

  lemma {:induction false} RequestsRoundTrip(reqs: seq<SavedRequest>)
    requires forall r :: r in reqs ==> ReimportableRequest(r)
    ensures PlanOf(RequestsJson(reqs), RequestStep) == Plan(RequestCreates(reqs), false)
  {
    if reqs != [] {
      var front := reqs[..|reqs| - 1];
      var last := reqs[|reqs| - 1];
      assert reqs == front + [last];
      assert forall r :: r in front ==> r in reqs;
      RequestsRoundTrip(front);
      RequestsJsonSnoc(front, last);
      RequestCreatesSnoc(front, last);
      PlanOfSnoc(RequestsJson(front), ExportedRequest(last), RequestStep);
      var c := CreateRequest(last.name, last.verb, JStr(last.url), last.headers, last.body);
      assert PlanOf([ExportedRequest(last)], RequestStep) == Plan([c], false) by {
        RequestRoundTrip(last);
        PlanOfOne(ExportedRequest(last), RequestStep);
      }
    } else {
      assert RequestsJson(reqs) == [];
    }
  }

  /**
   * Export then import: every environment and saved request of the export is
   * recreated with the same name, method, URL, headers, body and variables,
   * environments first, in the exported order.
   */
  lemma ExportImportRoundTrip(exportedAt: string, envs: seq<EnvironmentRecord>, reqs: seq<SavedRequest>)
    requires forall e :: e in envs ==> ReimportableEnv(e)
    requires forall r :: r in reqs ==> ReimportableRequest(r)
    ensures ImportPlan(ExportDocument(exportedAt, envs, reqs)) == Plan(EnvCreates(envs) + RequestCreates(reqs), false)
  {
    var doc := ExportDocument(exportedAt, envs, reqs);
    var f := doc.fields;
    assert f[0].0 == "exported_at" && f[1].0 == "version";
    assert f[2] == ("environments", JArr(EnvsJson(envs))) && f[3] == ("requests", JArr(RequestsJson(reqs)));
    assert Get(doc, "environments") == Some(JArr(EnvsJson(envs))) by { LookupEntry(f, 2); }
    assert Get(doc, "requests") == Some(JArr(RequestsJson(reqs))) by { LookupEntry(f, 3); }
    EnvsRoundTrip(envs);
    RequestsRoundTrip(reqs);
  }
}
