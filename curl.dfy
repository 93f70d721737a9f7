/**
 * The service's curl generator: a `curl` command line assembled from the
 * request's method, URL, query parameters, headers and body. Shell quoting,
 * query encoding and JSON serialisation are opaque functions; the model fixes
 * the structure around them. Environment variables are not substituted here.
 */
module Curl {
  import opened Wrappers
  import opened Text
  import opened Dict
  import opened Json
  import opened SendPrep

  /**
   * The payload as the generator reads it. An absent or empty method or URL is
   * the empty string; an absent body, or `null`, is `JNull`.
   */
  datatype CurlPayload = CurlPayload(verb: string, url: string, headers: Dict<string>, params: Dict<string>, body: Json)

  /** `shlex.quote`, `urlencode` and `json.dumps`. */
  datatype Encoders = Encoders(quote: string -> string, urlencode: Dict<string> -> string, dumps: Json -> string)

  /** What separates two parts of the command: a space, a backslash, a newline and two spaces. */
  const Separator: string := " \\\n  "

  /** The methods whose body is passed with `--data`. */
  predicate IsDataMethod(m: string) {
    m == "POST" || m == "PUT" || m == "PATCH"
  }

  /** A body is passed when there is one and the method carries it. */
  predicate SendsData(p: CurlPayload) {
    p.body != JNull && IsDataMethod(NormalizeMethod(p.verb))
  }

  /** The URL with the encoded parameters appended, after `&` when it already has a query and `?` otherwise. */
  function WithQuery(url: string, params: Dict<string>, urlencode: Dict<string> -> string): (r: string)
    ensures params == [] ==> r == url
    ensures params != [] ==> && |r| == |url| + 1 + |urlencode(params)|
                             && r[..|url|] == url && r[|url| + 1..] == urlencode(params)
                             && (r[|url|] == '&' <==> '?' in url)
                             && (r[|url|] == '?' <==> '?' !in url)
  {
    if params == [] then url
    else url + (if '?' in url then "&" else "?") + urlencode(params)
  }

  function FirstPart(p: CurlPayload, enc: Encoders): string {
    "curl -X " + NormalizeMethod(p.verb) + " " + enc.quote(WithQuery(p.url, p.params, enc.urlencode))
  }

  function HeaderPart(h: (string, string), quote: string -> string): string {
    "-H " + quote(h.0 + ": " + h.1)
  }

  function HeaderParts(headers: Dict<string>, quote: string -> string): (hs: seq<string>)
    ensures |hs| == |headers|
    ensures forall i :: 0 <= i < |headers| ==> hs[i] == HeaderPart(headers[i], quote)
  {
    seq(|headers|, i requires 0 <= i < |headers| => HeaderPart(headers[i], quote))
  }

  function DataPart(body: Json, enc: Encoders): string {
    "--data " + enc.quote(enc.dumps(body))
  }

  /** The parts of the command, in order. */
  function CurlParts(p: CurlPayload, enc: Encoders): seq<string> {
    [FirstPart(p, enc)] + HeaderParts(p.headers, enc.quote) + (if SendsData(p) then [DataPart(p.body, enc)] else [])
  }

  /**
   * The shape of the command: the `curl -X` part first, then exactly one `-H`
   * part per header in mapping order, then a `--data` part exactly when the
   * body is sent.
   */
  lemma CurlShape(p: CurlPayload, enc: Encoders)
    ensures var parts := CurlParts(p, enc);
            && parts[0] == "curl -X " + NormalizeMethod(p.verb) + " " + enc.quote(WithQuery(p.url, p.params, enc.urlencode))
            && (forall i :: 0 <= i < |p.headers| ==> parts[1 + i] == "-H " + enc.quote(p.headers[i].0 + ": " + p.headers[i].1))
            && (SendsData(p) <==> |parts| == |p.headers| + 2)
            && (!SendsData(p) ==> |parts| == |p.headers| + 1)
            && (SendsData(p) ==> parts[|parts| - 1] == "--data " + enc.quote(enc.dumps(p.body)))
  {
  }

  /** A method that carries no body never gets `--data`, whatever the body. */
  lemma NoDataWithoutBodyMethod(p: CurlPayload, enc: Encoders)
    requires !IsDataMethod(NormalizeMethod(p.verb)) || p.body == JNull
    ensures CurlParts(p, enc) == [FirstPart(p, enc)] + HeaderParts(p.headers, enc.quote)
  {
  }

  /** `generate_curl`: builds the URL and the list of parts step by step, then joins them. */
  method GenerateCurl(p: CurlPayload, enc: Encoders) returns (curl: string)
    ensures curl == Join(CurlParts(p, enc), Separator)
  {
    var verb := NormalizeMethod(p.verb);
    var url := p.url;
    if p.params != [] {
      var sep := if '?' in url then "&" else "?";
      url := url + sep + enc.urlencode(p.params);
    }
    assert url == WithQuery(p.url, p.params, enc.urlencode);
    var parts := ["curl -X " + verb + " " + enc.quote(url)];
    var i := 0;
    while i < |p.headers|
      invariant 0 <= i <= |p.headers|
      invariant parts == [FirstPart(p, enc)] + HeaderParts(p.headers[..i], enc.quote)
    {
      var (k, v) := p.headers[i];
      parts := parts + ["-H " + enc.quote(k + ": " + v)];
      i := i + 1;
    }
    assert p.headers[..i] == p.headers;
    if p.body != JNull && IsDataMethod(verb) {
      parts := parts + ["--data " + enc.quote(enc.dumps(p.body))];
    }
    assert parts == CurlParts(p, enc);
    curl := Join(parts, Separator);
  }

  /** The command starts with `curl -X`, the upper-cased method (GET by default) and a space. */
  lemma CommandPrefix(p: CurlPayload, enc: Encoders)
    ensures var c := Join(CurlParts(p, enc), Separator);
            var head := "curl -X " + NormalizeMethod(p.verb) + " ";
            |head| <= |c| && c[..|head|] == head
  {
    var parts := CurlParts(p, enc);
    var head := "curl -X " + NormalizeMethod(p.verb) + " ";
    assert parts[0][..|head|] == head;
  }
}
