/**
 * The token-checking gateway of src/hybrid_edge/proxy.py: the start-up
 * configuration read by `run_proxy` and the `secure_gateway` handler for
 * `POST /api/generate`.
 *
 * Flask routing and the HTTP call to the inference engine are replaced by
 * values: a request is its `Authorization` header and its parsed JSON body,
 * and the engine is the outcome its call would have.
 */
module Gateway {
  import opened Wrappers
  import opened Settings
  import Decimal
  import JsonText

  newtype byte = x: int | 0 <= x < 256

  /** Response and engine bodies are raw bytes. */
  type Bytes = seq<byte>

  const DefaultEnginePort: string := "11434"
  const DefaultListenPort: string := "5000"
  const JsonType: string := "application/json"

  /** Whether every byte of a body is below 0x80. */
  predicate AsciiBody(b: Bytes) {
    forall i :: 0 <= i < |b| ==> b[i] as int < 128
  }

  /** The bytes of an ASCII text, one per character. */
  function AsciiBytes(s: string): (b: Bytes)
    requires JsonText.IsAscii(s)
    ensures |b| == |s| && forall i :: 0 <= i < |s| ==> b[i] as int == s[i] as int
  {
    seq(|s|, i requires 0 <= i < |s| => s[i] as int as byte)
  }

  // ------------------------------------------------------------ configuration

  datatype ProxyConfig = ProxyConfig(secretKey: string, engineUrl: string, listenPort: int)

  /**
   * How `run_proxy` ends its set-up: `int()` of the listen port raised, the
   * secret is missing (it returns before registering the route), or the
   * route is registered and the app serves on `listenPort`.
   */
  datatype ProxyStart = BadListenPort(text: string) | NoSecret | Serving(config: ProxyConfig)

  /** The engine endpoint on the local host for a given port text. */
  function EngineUrl(port: string): string {
    "http://localhost:" + port + "/api/generate"
  }

  /**
   * `run_proxy()` reading `env`: the engine port and the secret are read
   * first, the listen port is converted with `int()` before the secret is
   * checked, and only a truthy secret lets the gateway serve.
   */
  function RunProxy(env: Env): (r: ProxyStart)
    ensures r.BadListenPort? <==> Decimal.ParseInt(GetEnvOr(env, "FLASK_PORT", DefaultListenPort)).None?
    ensures r.NoSecret? <==> Decimal.ParseInt(GetEnvOr(env, "FLASK_PORT", DefaultListenPort)).Some? &&
                             !Truthy(GetEnv(env, "SECRET_KEY"))
    ensures r.Serving? ==> && Some(r.config.secretKey) == GetEnv(env, "SECRET_KEY")
                           && r.config.secretKey != ""
                           && r.config.engineUrl == EngineUrl(GetEnvOr(env, "OLLAMA_PORT", DefaultEnginePort))
                           && Some(r.config.listenPort) == Decimal.ParseInt(GetEnvOr(env, "FLASK_PORT", DefaultListenPort))
  {
    var enginePort := GetEnvOr(env, "OLLAMA_PORT", DefaultEnginePort);
    var secret := GetEnv(env, "SECRET_KEY");
    var portText := GetEnvOr(env, "FLASK_PORT", DefaultListenPort);
    match Decimal.ParseInt(portText)
    case None => BadListenPort(portText)
    case Some(port) =>
      if !Truthy(secret) then NoSecret
      else Serving(ProxyConfig(secret.value, EngineUrl(enginePort), port))
  }

  /** With only a secret set, the engine is on port 11434 and the gateway listens on port 5000. */
  lemma DefaultPorts(env: Env)
    requires Truthy(GetEnv(env, "SECRET_KEY"))
    requires "OLLAMA_PORT" !in env && "FLASK_PORT" !in env
    ensures RunProxy(env).Serving?
    ensures RunProxy(env).config.engineUrl == "http://localhost:11434/api/generate"
    ensures RunProxy(env).config.listenPort == 5000
  {
    assert Decimal.DigitsValue("5") == 5 by { assert "5"[..0] == ""; }
    assert Decimal.DigitsValue("50") == 50 by { assert "50"[..1] == "5"; }
    assert Decimal.DigitsValue("500") == 500 by { assert "500"[..2] == "50"; }
    assert Decimal.DigitsValue("5000") == 5000 by { assert "5000"[..3] == "500"; }
  }

  // ------------------------------------------------------------------ handler

  /** `request.json`: the parsed document, or the error Flask raises when the body is not JSON. */
  datatype RequestBody = Parsed(document: string) | Unreadable(error: string)

  datatype Request = Request(authorization: Option<string>, body: RequestBody)

  /** What the forwarded call to the engine gives: its reply, or the exception it raised. */
  datatype EngineOutcome = EngineReplied(status: int, content: Bytes) | EngineFailed(error: string)

  /** The call made to the engine: its URL and the JSON document sent. */
  datatype EngineCall = EngineCall(url: string, document: string)

  datatype Response = Response(status: int, contentType: string, body: Bytes)

  /** One handled request: the response and the engine call made for it, if any. */
  datatype Exchange = Exchange(response: Response, call: Option<EngineCall>)

  /** The error message of a rejected request. */
  const Unauthorized: string := "Unauthorized"

  /** The text `jsonify({"error": message})` sends: compact JSON and a final newline. */
  function ErrorText(message: string): string {
    JsonText.EncodeObject([("error", message)], JsonText.Compact) + "\n"
  }

  /** The bytes `jsonify` sends for an error: the characters of `ErrorText`, all of them ASCII. */
  function ErrorBody(message: string): (b: Bytes)
    ensures AsciiBody(b)
    ensures |b| == |ErrorText(message)| && forall i :: 0 <= i < |b| ==> b[i] as int == ErrorText(message)[i] as int
  {
    JsonText.EncodeObjectAscii([("error", message)], JsonText.Compact);
    JsonText.AsciiConcat(JsonText.EncodeObject([("error", message)], JsonText.Compact), "\n");
    AsciiBytes(ErrorText(message))
  }

  /** The one header value the gateway accepts: the whole header, byte for byte. */
  predicate Authorized(config: ProxyConfig, authorization: Option<string>) {
    authorization == Some("Bearer " + config.secretKey)
  }

  /**
   * `secure_gateway()`: reject with 403 unless the header is exactly
   * `Bearer <secret>`; otherwise forward the parsed body to the engine and
   * relay its status and bytes as `application/json`, answering 500 with the
   * error text when reading the body or the forwarded call raises.
   */
  function SecureGateway(config: ProxyConfig, request: Request, engine: EngineOutcome): (x: Exchange)
    ensures x.response.contentType == JsonType
    ensures !Authorized(config, request.authorization) ==>
              x.response == Response(403, JsonType, ErrorBody(Unauthorized)) && x.call.None?
    ensures x.call.Some? <==> Authorized(config, request.authorization) && request.body.Parsed?
    ensures x.call.Some? ==> x.call.value == EngineCall(config.engineUrl, request.body.document)
    ensures x.call.Some? && engine.EngineReplied? ==> x.response == Response(engine.status, JsonType, engine.content)
    ensures x.call.Some? && engine.EngineFailed? ==> x.response == Response(500, JsonType, ErrorBody(engine.error))
    ensures Authorized(config, request.authorization) && request.body.Unreadable? ==>
              x.response == Response(500, JsonType, ErrorBody(request.body.error))
  {
    if !Authorized(config, request.authorization) then
      Exchange(Response(403, JsonType, ErrorBody(Unauthorized)), None)
    else
      match request.body
      case Unreadable(e) => Exchange(Response(500, JsonType, ErrorBody(e)), None)
      case Parsed(document) =>
        var call := EngineCall(config.engineUrl, document);
        match engine
        case EngineReplied(status, content) => Exchange(Response(status, JsonType, content), Some(call))
        case EngineFailed(e) => Exchange(Response(500, JsonType, ErrorBody(e)), Some(call))
  }

  /** The error bodies the gateway writes read back, as JSON, to exactly the message they carry. */
  lemma ErrorTextReadsBack(message: string)
    ensures JsonText.ParseDocument(ErrorText(message)) == Some([("error", message)])
  {
    JsonText.DocumentRoundTrip([("error", message)], JsonText.Compact, "\n");
  }

  /**
   * The scheme name is compared exactly: a header that differs from
   * `Bearer <secret>` only in the case of the scheme is rejected.
   */
  lemma SchemeCaseMatters(config: ProxyConfig, document: string, engine: EngineOutcome)
    ensures SecureGateway(config, Request(Some("bearer " + config.secretKey), Parsed(document)), engine).response.status == 403
    ensures SecureGateway(config, Request(Some("BEARER " + config.secretKey), Parsed(document)), engine).response.status == 403
  {
    assert ("bearer " + config.secretKey)[0] != ("Bearer " + config.secretKey)[0];
    assert ("BEARER " + config.secretKey)[1] != ("Bearer " + config.secretKey)[1];
  }
}
