/**
 * The request builder of `x402_invoke.ts` (lines 96-112, 116-119): either an
 * entrypoint invocation (`POST <url>/entrypoints/<name>/invoke` with the input
 * wrapped as `{"input": ...}`) or a passthrough of the URL, method and raw body.
 * JSON parsing is the platform's and is a parameter; serialisation is left abstract.
 */
module X402Request {
  import opened Wrappers
  import opened Text
  import opened X402Credentials

  /** What `input` becomes inside the envelope: `{}`, the parsed JSON value, or the raw text. */
  datatype Payload<J> = EmptyObject | Parsed(value: J) | Raw(text: string)

  /** The request body: `JSON.stringify({ input })`, or the `--input` text verbatim. */
  datatype Body<J> = InputEnvelope(input: Payload<J>) | Verbatim(text: string)

  /** What is handed to the fetch client. */
  datatype Request<J> = Request(url: string, verb: string, headers: seq<(string, string)>, body: Option<Body<J>>)

  /** The fixed request headers, set whatever the body is. */
  const JsonHeaders: seq<(string, string)> := [("Content-Type", "application/json")]

  /** `url.endsWith('/') ? url.slice(0, -1) : url`: removes one trailing slash, no more. */
  function StripTrailingSlash(url: string): (base: string)
    ensures EndsWith(url, "/") ==> url == base + "/"
    ensures !EndsWith(url, "/") ==> base == url
  {
    if EndsWith(url, "/") then url[..|url| - 1] else url
  }

  /** `${baseUrl}/entrypoints/${entrypoint}/invoke`. */
  function EntrypointUrl(url: string, entrypoint: string): string {
    StripTrailingSlash(url) + "/entrypoints/" + entrypoint + "/invoke"
  }

  /** The envelope's input: `{}` without input, else the parsed value, else the raw text. */
  function InputPayload<J>(input: Option<string>, parse: string -> Option<J>): Payload<J> {
    if !Usable(input) then EmptyObject
    else match parse(input.value)
      case Some(v) => Parsed(v)
      case None => Raw(input.value)
  }

  /** The request the tool sends, stated per shape. */
  function RequestPlan<J>(url: string, entrypoint: Option<string>, input: Option<string>,
                          methodArg: Option<string>, parse: string -> Option<J>): Request<J>
  {
    if Usable(entrypoint) then
      Request(EntrypointUrl(url, entrypoint.value), "POST", JsonHeaders, Some(InputEnvelope(InputPayload(input, parse))))
    else
      Request(url, if Usable(methodArg) then ToUpper(methodArg.value) else "GET", JsonHeaders,
              if Usable(input) then Some(Verbatim(input.value)) else None)
  }

  /** The builder as the source runs it: defaults first, then overwritten per shape. */
  method BuildRequest<J>(url: string, entrypoint: Option<string>, input: Option<string>,
                         methodArg: Option<string>, parse: string -> Option<J>) returns (request: Request<J>)
    ensures request == RequestPlan(url, entrypoint, input, methodArg, parse)
  {
    var finalUrl := url;
    var finalMethod := if Usable(methodArg) then methodArg.value else "GET";
    var finalBody: Option<Body<J>> := None;
    if Usable(entrypoint) {
      var baseUrl := if EndsWith(url, "/") then url[..|url| - 1] else url;
      finalUrl := baseUrl + "/entrypoints/" + entrypoint.value + "/invoke";
      finalMethod := "POST";
      var inputData: Payload<J> := EmptyObject;
      if Usable(input) {
        match parse(input.value)
        case Some(v) => inputData := Parsed(v);
        case None => inputData := Raw(input.value);
      }
      finalBody := Some(InputEnvelope(inputData));
    } else {
      if Usable(methodArg) {
        finalMethod := ToUpper(methodArg.value);
      }
      if Usable(input) {
        finalBody := Some(Verbatim(input.value));
      }
    }
    request := Request(finalUrl, finalMethod, JsonHeaders, finalBody);
  }

  /**
   * An entrypoint invocation ignores `--method`: it always POSTs the envelope to
   * the entrypoint path under the URL with at most one trailing slash removed.
   */
  lemma EntrypointRequestShape<J>(url: string, entrypoint: string, input: Option<string>,
                                  methodArg: Option<string>, parse: string -> Option<J>)
    requires entrypoint != ""
    ensures var r := RequestPlan(url, Some(entrypoint), input, methodArg, parse);
      && r.verb == "POST"
      && r.headers == JsonHeaders
      && (EndsWith(url, "/") ==> url + "entrypoints/" + entrypoint + "/invoke" == r.url)
      && (!EndsWith(url, "/") ==> url + "/entrypoints/" + entrypoint + "/invoke" == r.url)
      && r.body == Some(InputEnvelope(InputPayload(input, parse)))
  {
    if EndsWith(url, "/") {
      var base := StripTrailingSlash(url);
      assert base + "/" + "entrypoints/" == base + "/entrypoints/";
    }
  }

  /**
   * The envelope's input is `{}` exactly when there is no input, the parsed value
   * when the input parses, and the raw text otherwise: malformed JSON is no error.
   */
  lemma InputPayloadCases<J>(input: Option<string>, parse: string -> Option<J>)
    ensures InputPayload(input, parse) == EmptyObject <==> !Usable(input)
    ensures Usable(input) && parse(input.value).Some? ==> InputPayload(input, parse) == Parsed(parse(input.value).value)
    ensures Usable(input) && parse(input.value).None? ==> InputPayload(input, parse) == Raw(input.value)
  {
  }

  /**
   * A passthrough keeps the URL, upper-cases the method or defaults to `GET`,
   * sends the input verbatim or no body at all, and still sets the JSON header.
   */
  lemma PassthroughRequestShape<J>(url: string, input: Option<string>, methodArg: Option<string>,
                                   parse: string -> Option<J>)
    ensures var r := RequestPlan(url, None, input, methodArg, parse);
      && r.url == url
      && (Usable(methodArg) ==> r.verb == ToUpper(methodArg.value))
      && (!Usable(methodArg) ==> r.verb == "GET")
      && (r.body.Some? <==> Usable(input))
      && (Usable(input) ==> r.body == Some(Verbatim(input.value)))
      && r.headers == JsonHeaders
  {
  }
}
