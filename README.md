# API Toolbox — a Dafny model of the request builder and its service

API Toolbox is a small HTTP client. A browser front end edits request
drafts: a method, a URL, key/value rows for headers and query parameters, and
JSON text for the body. It also saves requests, manages environments of
`{{name}}` variables, and exports and imports its data as JSON. A Python
service sends the requests, substituting an environment's variables first,
and renders drafts as `curl` command lines.

This project models the logic of both halves and proves properties of it:

- `Text`, `Dict`, `Json`, `Wrappers`: JavaScript `trim` (with its whitespace
  set), ASCII upper-casing, decimal numerals, ordered string-keyed mappings
  kept in insertion order (as a Python dict does, and as a JavaScript object
  does for keys that are not integer-like; see "Left out"), and JSON values
  with JavaScript truthiness and `String(v)`.
- `KvRows`: the key/value row editor. It covers turning rows into a mapping
  (a `while` loop proved equal to a fold), turning a mapping back into rows,
  and the row edits `addRow`, `removeRow`, `toggle` and `update`.
- `RequestDraft`: the JSON-draft gate, the payload that send and curl both
  post, save and create-environment validation, loading a saved request into
  the builder, the status badge, and the selected-environment label.
- `ImportExport`: the export document and the import loops. The import is an
  ordered list of create calls. One `while` loop, run once over the
  environments and once over the requests, is proved equal to a fold.
- `Substitution`: the service's single-pass `{{name}}` substitution.
- `SendPrep`: the send endpoint's preparation step. It normalises the method,
  resolves the environment's variables and substitutes the URL and every
  header and parameter value.
- `Curl`: the curl generator. It is a method that appends parts in a loop and
  is proved equal to a specification of the parts.

Foreign functions are parameters of the model, so nothing is assumed about
their internals: `JSON.parse`, `JSON.stringify`, `json.loads`, `json.dumps`,
`shlex.quote` and `urlencode`. A network answer is a parameter too (which
create call fails first, and whether the final refresh succeeds).

Behaviours of the code that the model keeps and that are easy to miss:

- After an import, the environment and request lists are re-fetched only when
  every create call succeeded. A failed create call jumps to the error
  handler before the refresh (`frontend/src/App.jsx:312-334`), so a partial
  import leaves the lists as they were.
- The curl generator reads `environment_id` nowhere and substitutes no
  variables (`backend/app/main.py:140-160`). A draft with `{{name}}`
  placeholders therefore yields a command that still contains them.
- Import does not look at the document's `version`.
- In the request loop of the import, the name and the method are evaluated
  before the skip test. So an entry whose method is a truthy non-string
  aborts the import even if it would be skipped.

## Model

| member | source | states |
|---|---|---|
| Text.Trim | frontend/src/App.jsx:58 | the input is whitespace, then the result, then whitespace: the result is the input with only its leading and trailing JavaScript whitespace cut, and it has none left at either end |
| Text.TrimEmptyIff | frontend/src/App.jsx:58-59 | trimming gives the empty string exactly when the text is all whitespace (the "blank input" test) |
| Text.TrimIdempotent | frontend/src/App.jsx:71 | trimming twice is trimming once, so an already trimmed key is kept as it is |
| Text.ToUpperIsUpper | frontend/src/App.jsx:322 | upper-casing yields an upper-case string, and leaves an upper-case string unchanged |
| Text.ToUpper | frontend/src/App.jsx:322 | the result has the same length, each ASCII lower-case letter becomes its capital, and every other character is kept |
| Text.DecimalRoundTrip | frontend/src/App.jsx:145 | `Number()` of the decimal numeral of a natural number gives that number back |
| Dict.LookupNone | backend/app/main.py:43 | a key is absent exactly when no entry has it |
| Dict.LookupEntry | backend/app/main.py:43 | a read finds the value of the first entry with the key |
| Dict.PutLookup | frontend/src/App.jsx:73 | after assigning `k`, reading `k` gives the new value and every other key reads as before |
| Dict.Put | frontend/src/App.jsx:73 | assigning a key that is present keeps the keys and their order; a new key is appended at the end |
| Dict.MapValuesLookup | backend/app/main.py:88-89 | mapping the values keeps each key's presence and maps the value bound to it |
| KvRows.RowsToDict | frontend/src/App.jsx:67-76 | the mapping built from rows has unique, trimmed, non-empty keys (never `__proto__`) and at most one entry per row |
| KvRows.RowsToObject | frontend/src/App.jsx:67-76 | the loop over the rows computes exactly the fold `RowsToDict` |
| KvRows.FileRowLookup | frontend/src/App.jsx:69-73 | filing one row sets only the key the row files under, to the row's value, and every other key reads as before |
| KvRows.RowsToDictAbsent | frontend/src/App.jsx:69-73 | a key is missing from the mapping exactly when no row files under it: no enabled row has it as its trimmed key, or the key is `""` or `__proto__`, which are never set |
| KvRows.RowsToDictLastWins | frontend/src/App.jsx:73 | a key other than `""` and `__proto__` maps to the value of the last enabled row whose trimmed key it is |
| KvRows.SkippedRowIrrelevant | frontend/src/App.jsx:70-72 | a disabled row, or one whose trimmed key is empty, can be removed without changing the mapping |
| KvRows.ObjectToRows | frontend/src/App.jsx:78-82 | one enabled row per entry, with the value as `String(v)`; a single blank enabled row when the value is not an object or has no entries |
| KvRows.CleanMappingRows | frontend/src/App.jsx:67-82 | rows made from a clean mapping turn back into that same mapping |
| KvRows.RoundTrip | frontend/src/App.jsx:67-82 | rows to mapping to rows to mapping gives the first mapping again |
| KvRows.NormalizeRows | frontend/src/App.jsx:84-88 | the result is never empty, a non-empty list is returned unchanged, and an empty one becomes one blank row |
| KvRows.NormalizeKeepsMapping | frontend/src/App.jsx:84-88 | normalising does not change the mapping the rows stand for |
| KvRows.AddRow | frontend/src/App.jsx:340 | the list grows by exactly one blank enabled row at the end, and the rows before it are kept |
| KvRows.AddRowKeepsMapping | frontend/src/App.jsx:340 | adding a row does not change the mapping |
| KvRows.RemoveRow | frontend/src/App.jsx:341 | exactly the row at `idx` is dropped; removing the only row leaves one blank row; an index out of range changes nothing but the normalisation |
| KvRows.RemoveAddedRow | frontend/src/App.jsx:340-341 | removing the row just added gives back the normalised list |
| KvRows.Toggle | frontend/src/App.jsx:342-345 | only row `idx` changes, and only its enabled flag, which is flipped; length and order are kept |
| KvRows.ToggleTwice | frontend/src/App.jsx:342-345 | toggling the same row twice restores the list |
| KvRows.DisableIsRemove | frontend/src/App.jsx:342-345 | disabling an enabled row gives the same mapping as deleting it |
| KvRows.Update | frontend/src/App.jsx:346-347 | only the chosen field of row `idx` changes; the other field, the flag, the other rows and the length are kept |
| KvRows.UpdateTwice | frontend/src/App.jsx:346-347 | a second update of the same field overrides the first |
| RequestDraft.SafeParseJson | frontend/src/App.jsx:57-65 | blank text gives `{}`; otherwise the result succeeds exactly when the parser accepts the trimmed text, with its value; a failure carries "<label> must be valid JSON" |
| RequestDraft.BlankDraftIsEmptyObject | frontend/src/App.jsx:58-59 | missing or whitespace-only text parses to the empty object |
| RequestDraft.DraftFailureNamesField | frontend/src/App.jsx:60-64 | the gate fails exactly when the text is not blank and the parser rejects it, and the error names the field |
| RequestDraft.EnvironmentId | frontend/src/App.jsx:145 | no selection sends no environment id; a selected id is a non-negative number |
| RequestDraft.SelectedIdIsSent | frontend/src/App.jsx:145 | selecting an environment whose id is `n` sends `n` |
| RequestDraft.SendAndCurlAgree | frontend/src/App.jsx:126-183 | send and curl fail together with the same error; otherwise they post the same payload, send to `/send` and curl to `/curl` |
| RequestDraft.PayloadRules | frontend/src/App.jsx:131-146 | the call is made exactly when the body draft parses, and otherwise the action stops with "Body must be valid JSON"; the payload keeps the method and URL, its headers and params are the row mappings, its body is the parsed draft only for POST, PUT and PATCH and `null` otherwise, and its environment id is the number of the selection (`null` without one) |
| RequestDraft.SaveStep | frontend/src/App.jsx:197-213 | saving fails exactly on an unparsable body, with "Body must be valid JSON"; otherwise it posts to `/requests` the trimmed name, or the URL when that name is blank, with the method, URL, header mapping and parsed body for every method |
| RequestDraft.CreateEnvStep | frontend/src/App.jsx:223-236 | the variables are checked first, then a blank name is rejected with "Environment name is required", else the trimmed name and parsed variables are posted |
| RequestDraft.LoadIntoBuilder | frontend/src/App.jsx:249-253 | the method becomes the upper-cased method (GET when missing), the URL is copied, the header rows are `objectToRows` of the headers (or of `{}` when they are falsy), the body text is the stringified body or `{}`, and the params and environment are kept |
| RequestDraft.SaveThenLoad | frontend/src/App.jsx:197-253 | saving a draft and loading the stored request back restores the method, the URL and the header mapping |
| RequestDraft.StatusBadge | frontend/src/App.jsx:90-96 | a missing or zero code shows "—" in the neutral colours; 2xx, 3xx and 4xx each get their own colours; every other code gets the error colours; the background and foreground are always the pair `ToneColours` gives the class; the text is the code whenever it is not falsy |
| RequestDraft.ToneColoursDistinct | frontend/src/App.jsx:91-95 | no two colour classes share a colour pair, so the colours tell the class |
| RequestDraft.FindEnvironment | frontend/src/App.jsx:792 | a found environment is in the list with the selected id, and none is found only when no environment has it |
| RequestDraft.FindEnvironmentFirst | frontend/src/App.jsx:792 | the environment found is the first in the list with the selected id |
| RequestDraft.SelectedEnvLabel | frontend/src/App.jsx:792 | "none" without a selection, "—" when the selected id is unknown, otherwise the name of the environment `find` returns, or "—" when that name is empty |
| ImportExport.TrimmedText | frontend/src/App.jsx:313-321 | a missing or falsy value reads as "", a string reads as its trimmed text, and the read throws exactly when the value is a truthy non-string |
| ImportExport.UpperMethod | frontend/src/App.jsx:322 | a missing or falsy method reads as "GET", a non-empty string as its upper-cased text, and the read throws exactly when the method is a truthy non-string; the result is non-empty and upper-case |
| ImportExport.ObjectOr | frontend/src/App.jsx:314-325 | an object or array is kept as it is; anything else, or nothing, becomes `{}` |
| ImportExport.EnvStepIssuesValid | frontend/src/App.jsx:312-317 | every environment call has a trimmed, non-empty name and object variables |
| ImportExport.RequestStepIssuesValid | frontend/src/App.jsx:320-328 | every request call has a trimmed non-empty name, an upper-case method, a truthy URL, and object headers and body |
| ImportExport.EnvStepRules | frontend/src/App.jsx:313-317 | an environment entry throws exactly when its name is a truthy non-string, is skipped exactly when its name is missing, falsy or whitespace, and otherwise creates the trimmed name with the variables or `{}` |
| ImportExport.RequestStepRules | frontend/src/App.jsx:320-327 | a request entry throws exactly when its name or method is a truthy non-string; otherwise it is skipped exactly when its name is blank or its URL is missing or falsy, and creates the trimmed name, the upper-cased method, the URL and the headers and body or `{}` |
| ImportExport.PlanOfConcat | frontend/src/App.jsx:312-328 | the calls for a list are those for its first part followed by those for the rest (document order) |
| ImportExport.CallsComeFromEntries | frontend/src/App.jsx:312-328 | every issued call is the call of one of the entries |
| ImportExport.ImportPlanShape | frontend/src/App.jsx:308-328 | all environment calls precede all request calls, and every call is well formed |
| ImportExport.AbortedStaysAborted | frontend/src/App.jsx:304-335 | once an entry throws, the entries after it issue nothing |
| ImportExport.IssueAll | frontend/src/App.jsx:312-328 | the loop issues exactly the calls of the fold and stops at the first entry that throws |
| ImportExport.BuildImportCalls | frontend/src/App.jsx:306-328 | environments first, then requests, and a `null` document throws before any call |
| ImportExport.RunImport | frontend/src/App.jsx:300-335 | no file does nothing; an unparsable file issues no call, creates nothing, refreshes nothing and reports failure; when create call `k` of the plan fails, calls 0..k are issued, the first `k` are created and nothing is refreshed; with no failure every planned call is issued and created; the lists are refreshed exactly when every planned call succeeded and the plan was not aborted, and success is reported exactly when the refresh also succeeds |
| ImportExport.SkipsRequestWithoutUrl | frontend/src/App.jsx:312-331 | a document with a named environment and a request without a URL creates only the environment, refreshes, and reports success |
| ImportExport.ExportedRequestFields | frontend/src/App.jsx:272-276 | an exported request keeps the saved request's name, method, URL, headers and body next to its `_meta` note |
| ImportExport.EnvRoundTrip | frontend/src/App.jsx:312-317 | an exported environment with a trimmed non-empty name and object variables is re-created as it was |
| ImportExport.RequestRoundTrip | frontend/src/App.jsx:320-328 | an exported request with a trimmed name, a non-empty URL, an upper-case method and object headers and body is re-created as it was |
| ImportExport.EmptyUrlIsDropped | frontend/src/App.jsx:323-326 | a saved request with an empty URL is exported but always skipped on import |
| ImportExport.EnvsRoundTrip | frontend/src/App.jsx:312-317 | when every environment has a trimmed non-empty name and object variables, importing the exported environments re-creates all of them, in order |
| ImportExport.RequestsRoundTrip | frontend/src/App.jsx:320-328 | when every request has a trimmed name, a non-empty URL, an upper-case method and object headers and body, importing the exported requests re-creates all of them, in order |
| ImportExport.ExportImportRoundTrip | frontend/src/App.jsx:260-328 | when every environment and every request meets the conditions of the two rows above, importing an export re-creates every environment and then every saved request, in the exported order, without aborting |
| Substitution.WordRun | backend/app/main.py:37 | the longest prefix of word characters: a prefix, all word characters, followed by a non-word character or nothing |
| Substitution.PlaceholderAt | backend/app/main.py:37 | a placeholder is `{{`, one or more word characters and `}}` at the start of the text |
| Substitution.PlaceholderAtOf | backend/app/main.py:37 | `{{name}}` with a word `name` is always read as a placeholder called `name` |
| Substitution.Replacement | backend/app/main.py:43 | a bound name becomes its value; an unbound one stays as `{{name}}` |
| Substitution.Names | backend/app/main.py:43 | every placeholder the pass meets has a non-empty word name |
| Substitution.ApplyVars | backend/app/main.py:40-43 | a value that is not a string is returned unchanged; a string is substituted |
| Substitution.PlaceholderStep | backend/app/main.py:43 | each `{{name}}` is replaced by its value or kept, and the pass continues right after it |
| Substitution.LiteralStep | backend/app/main.py:43 | a character that cannot open a placeholder is copied |
| Substitution.UnboundIsIdentity | backend/app/main.py:43 | when no placeholder met has a bound name, the text is unchanged |
| Substitution.NoVarsIdentity | backend/app/main.py:43 | with no variables, substitution is the identity |
| Substitution.NoPlaceholderIdentity | backend/app/main.py:43 | a text with no placeholder is unchanged whatever the variables |
| Substitution.EmptyNameKept | backend/app/main.py:37 | `{{}}` is not a placeholder and is kept |
| Substitution.HyphenNameKept | backend/app/main.py:37 | `{{a-b}}` is not a placeholder and is kept |
| Substitution.InsertedTextNotRescanned | backend/app/main.py:43 | inserted text is not scanned again: `{{a}}` with `a` bound to `{{b}}` gives `{{b}}` even though `b` is bound |
| SendPrep.NormalizeMethod | backend/app/main.py:76 | an empty method becomes "GET", any other is upper-cased; the result is non-empty and upper-case |
| SendPrep.NormalizeMethodIdempotent | backend/app/main.py:76 | normalising an already normalised method changes nothing |
| SendPrep.ResolveVars | backend/app/main.py:78-85 | no environment id, an unknown id, or an empty or NULL variables column gives no variables; otherwise the parsed variables, or none when parsing fails |
| SendPrep.Prepare | backend/app/main.py:76-89 | the method is normalised; the URL and each header and parameter value are substituted with the resolved variables; the keys and their order are unchanged |
| SendPrep.PreparedLookup | backend/app/main.py:88-89 | a header or parameter is present after preparation exactly when it was before, with its value substituted |
| SendPrep.NoEnvironmentNoChange | backend/app/main.py:78-89 | without variables the URL, headers and parameters are passed on unchanged |
| Curl.WithQuery | backend/app/main.py:148-150 | no parameters leave the URL unchanged; otherwise the URL is followed by `&` when it already has a `?` and by `?` otherwise, then by the encoded parameters |
| Curl.HeaderParts | backend/app/main.py:154-155 | one `-H` part per header, in mapping order, quoting `key: value` |
| Curl.CurlShape | backend/app/main.py:142-158 | the first part is `curl -X <METHOD> <quoted url>`, then one `-H` part per header in order, and a final `--data` part exactly when there is a body and the method is POST, PUT or PATCH |
| Curl.NoDataWithoutBodyMethod | backend/app/main.py:157-158 | without a body, or with another method, the command has no `--data` part |
| Curl.GenerateCurl | backend/app/main.py:141-160 | the loop builds exactly the specified parts and joins them with a space, a backslash, a newline and two spaces |
| Curl.CommandPrefix | backend/app/main.py:142-160 | the command starts with `curl -X `, the upper-cased method (GET by default) and a space |

## Left out

- HTTP, persistence and the browser: the axios calls, the FastAPI routing, the database queries and their ordering, `httpx` dispatch, response sniffing, timing, history records, the clipboard, the Blob download and the export file name. `Date` and the export timestamp become a parameter.
- Toasts, timers, the `sending`/`creatingEnv` flags, and the concurrency of refreshes. A network answer is a parameter.
- Internals of `JSON.parse`, `JSON.stringify`, `json.loads`, `json.dumps`, `shlex.quote` and `urlencode`. These are opaque parameters. This includes the body substitution in the send endpoint (`backend/app/main.py:91-97`), which goes through `json.dumps` and `json.loads`.
- `backend/app/models.py` is not part of this model; it only declares tables.
- Substitution.IsWordChar: Python's `\w` is Unicode-aware, and the model takes only ASCII letters, digits and `_`.
- Text.ToUpper: JavaScript `toUpperCase` and Python `upper` map the whole of Unicode, and the model maps only ASCII letters.
- Json.JsString: numbers are integers; fractions, exponents and `NaN` are not modelled. An object's keys keep insertion order, and JavaScript's rule that integer-like keys come first is not modelled.
- RequestDraft.EnvironmentId: `Number()` is modelled for numerals of digits only. The selector only ever holds an environment's id or the empty string.
- RequestDraft.LoadIntoBuilder: the reset of the response and error state is not modelled.
- SendPrep.ResolveVars: variables are a mapping of strings, as the service stores them. A stored value of another type, for which `str()` would be used, is not modelled.
- Curl.GenerateCurl: the method, URL, header values and parameter values are strings, as the front end sends them. Values of other types are not modelled. A missing method or URL is the empty string.
- KvRows.RowsToDict: a JavaScript object lists integer-like keys (such as `"2"`) first, in ascending numeric order, whatever order they were assigned in. The model keeps insertion order for every key. So for such header or parameter names, the order of the mapping sent to the service, and the order of the curl `-H` parts, is not modelled.
- Dict.Put: appends a new key at the end for every key; the JavaScript ordering of integer-like keys described above is not modelled.
- Dict.Lookup: a mapping with a repeated key answers with its first binding. The mappings the model builds have unique keys.
