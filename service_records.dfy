/**
 * The records the remote service returns from `GET /requests` and
 * `GET /environments`, and the JSON objects they travel as.
 */
module ServiceRecords {
  import opened Json

  /** A saved request as listed by the service; query parameters are not part of it. */
  datatype SavedRequest = SavedRequest(id: int, name: string, verb: string, url: string, headers: Json, body: Json)

  /** A named bundle of substitution variables. */
  datatype EnvironmentRecord = EnvironmentRecord(id: int, name: string, variables: Json)

  function SavedRequestJson(r: SavedRequest): Json {
    JObj([("id", JNum(r.id)), ("name", JStr(r.name)), ("method", JStr(r.verb)),
          ("url", JStr(r.url)), ("headers", r.headers), ("body", r.body)])
  }

  function EnvironmentJson(e: EnvironmentRecord): Json {
    JObj([("id", JNum(e.id)), ("name", JStr(e.name)), ("variables", e.variables)])
  }
}
