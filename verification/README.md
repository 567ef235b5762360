# hybrid-edge core in Dafny

hybrid-edge runs a local inference engine behind a public tunnel. The repository has three cooperating parts, and this project models the core of each:

- **Node supervisor** (`HybridServer`, src/hybrid_edge/server.py). It checks its secret and hands the secret and its port to the gateway. It spawns the tunnel and scans the tunnel's output for the public URL, publishing that URL to a directory record (a GitHub Gist file `tunnel.json`) at most once per run. `stop` terminates the tunnel only when one was spawned.
- **Gateway** (`run_proxy` and `secure_gateway`, src/hybrid_edge/proxy.py). It forwards `POST /api/generate` to the local engine only when the `Authorization` header is exactly `Bearer <secret>`. Otherwise it answers 403. When reading the body or calling the engine fails, it answers 500.
- **Client** (`HybridLLM`, src/hybrid_edge/sdk.py). It caches the node address read from the directory record. It sends authenticated generate requests to that address and re-reads the record when no address is cached or the tunnel looks dead.

Modules:

| file | module | what it holds |
|---|---|---|
| wrappers.dfy | `Wrappers` | `Option` and `Result` |
| settings.dfy | `Settings` | Python truthiness, `a or b`, `os.getenv` |
| decimal.dfy | `Decimal` | `str(int)` and the ASCII part of `int(str)` |
| json_text.dfy | `JsonText` | `json.dumps` (with `ensure_ascii`) and `json.loads` for objects of string members |
| tunnel_url.dfy | `TunnelUrl` | `re.search(r'https://[a-zA-Z0-9-]+\.trycloudflare\.com', line)` |
| server.dfy | `Server` | the node supervisor of server.py |
| gateway.dfy | `Gateway` | the gateway of proxy.py |
| resolver.dfy | `Resolver` | the client of sdk.py |
| end_to_end.dfy | `EndToEnd` | the three parts composed |

Modelling choices:

- Every external effect is replaced by a value.
  - The tunnel process becomes the list of strings its `readline()` returns; an empty string means end of output. The list may be followed by a `readline()` that raises, as it does on output that is not UTF-8.
  - A Gist update becomes the `PATCH` request it would send.
  - A directory read becomes its outcome.
  - The client's `POST` becomes its outcome: a reply, a refused connection or another exception.
  - The gateway's engine call becomes its outcome.
- A `generate` call is a pure function. Its inputs are the cached client state, the outcome of the read done when no address is cached, the outcome of the `POST`, and the outcome of the re-read after a tunnel-dead status. It reports how many directory reads it made and which request it sent.
- On a 502, 503 or 530 reply one might expect the client to forget the address and read the directory on its next call. The code instead re-reads the directory immediately, inside the same call (sdk.py:66-69), and the model does the same. So the next call reads the directory again only when that immediate re-read found no usable address (`Resolver.NextCallAfterTunnelDeath`). Likewise, a refused connection does not clear the cached address (sdk.py:73-74). The client keeps sending to it (`Resolver.ConnectionRefusedKeepsAddress`).
- The client's `Bearer <secret>` header cannot be sent when the secret holds a line break or a character above U+00FF. Two checks stand in its way, and they run at different times:
  - `requests` rejects a carriage return anywhere, or a line feed that is not the last character, while it prepares the request, so before any connection (`Resolver.CarriageReturnRejectedFirst`).
  - `http.client` rejects a final line feed, or a character above U+00FF, when it writes the headers. Over `https`, `urllib3` opens the connection before that, so a connection that cannot be opened is reported instead (`Resolver.FinalLineFeedOrder`).
  - Either way nothing is sent. The lemmas about replies therefore assume a sendable secret, and `Resolver.UnsendableSecretNeverSent` covers the other case.
- The header check compares the whole header exactly. A scheme written `bearer` or `BEARER` is rejected (`Gateway.SchemeCaseMatters`).

## Model

| member | source | states |
|---|---|---|
| Settings.OrElseTruthy | src/hybrid_edge/server.py:24-26 | Python's `arg or os.getenv(...)` is truthy exactly when one operand is truthy, and it is always one of the two operands |
| Decimal.IntToString | src/hybrid_edge/server.py:35 | `str(port)` is non-empty, and it starts with `-` exactly when the port is negative |
| Decimal.ParseInt | src/hybrid_edge/proxy.py:10 | `int(text)` succeeds exactly on an optional sign followed by at least one ASCII digit; the sign of the result follows the text |
| Decimal.NatToStringRoundTrip | src/hybrid_edge/server.py:35 | parsing the decimal text of a natural number gives the number back |
| Decimal.IntToStringRoundTrip | src/hybrid_edge/proxy.py:10 | `int(str(n)) == n` for every integer, so the port the supervisor writes is the port the gateway reads |
| Decimal.IntToStringInjective | src/hybrid_edge/server.py:35 | different ports give different `FLASK_PORT` texts |
| JsonText.Hex4RoundTrip | src/hybrid_edge/server.py:47 | a `\uXXXX` escape written in lower-case hex reads back as the same code unit |
| JsonText.SurrogatesJoin | src/hybrid_edge/server.py:47 | the UTF-16 surrogate pair written for a character above U+FFFF recombines into that character |
| JsonText.EscapeCharRoundTrip | src/hybrid_edge/server.py:47 | the escaped text `json.dumps` writes for any one character is read back by `json.loads` as exactly that character, leaving what follows untouched |
| JsonText.EscapeStringRoundTrip | src/hybrid_edge/server.py:47 | the escaped text of any string, up to its closing quote, decodes back to the string |
| JsonText.StringRoundTrip | src/hybrid_edge/server.py:47 | `json.loads` of a string literal written by `json.dumps` gives the string and stops right after the literal |
| JsonText.MembersRoundTrip | src/hybrid_edge/server.py:47 | a non-empty list of encoded members followed by the closing brace reads back as the same list |
| JsonText.ObjectRead | src/hybrid_edge/server.py:47 | any encoded object (empty or not, either separator style) reads back as its members, with the following text left over |
| JsonText.DocumentRoundTrip | src/hybrid_edge/server.py:47 | `json.loads(json.dumps(d)) == d` for a dict of strings, also when white space follows the document |
| JsonText.Lookup | src/hybrid_edge/sdk.py:32 | `data.get(key)` finds a value exactly when the key occurs, and the value found belongs to the last occurrence of the key |
| JsonText.EncodeObject | src/hybrid_edge/server.py:47 | `json.dumps` of a dict writes a text that opens with `{` and closes with `}`; its round trip is `JsonText.DocumentRoundTrip` |
| JsonText.ParseDocument | src/hybrid_edge/sdk.py:31 | `r.json()` accepts only a text whose first non-blank character opens an object; its round trip is `JsonText.DocumentRoundTrip` |
| JsonText.EncodeObjectAscii | src/hybrid_edge/proxy.py:22 | with `ensure_ascii`, an encoded object contains only ASCII characters |
| TunnelUrl.MatchFromComplete | src/hybrid_edge/server.py:91 | a match that starts at a given position is unique: it ends where the greedy host run meets the suffix |
| TunnelUrl.SearchFromLeftmost | src/hybrid_edge/server.py:91 | the search returns the leftmost match, the only one at its start, and returns nothing only when no match exists |
| TunnelUrl.Find | src/hybrid_edge/server.py:91-93 | `match.group(0)` is a tunnel URL; there is one exactly when the line contains a match, and it is the text of the leftmost match |
| TunnelUrl.ReadyLineExample | src/hybrid_edge/server.py:91-93 | the URL in a typical ready line is found exactly, without the text after it |
| Server.New | src/hybrid_edge/server.py:21-35 | construction fails with the secret-required error exactly when neither the argument nor the environment gives a non-empty secret, and with the embedded-NUL error of the environment assignment when the chosen secret holds a NUL character; each setting prefers a truthy argument to the environment; no tunnel is running; `SECRET_KEY` and `FLASK_PORT` are written to the environment and every other variable is kept |
| Server.UpdateServiceDiscovery | src/hybrid_edge/server.py:37-50 | publishing is skipped exactly when the Gist id or the token is missing or empty; otherwise the `PATCH` goes to the Gist with the token header, and the record file reads back as exactly `{"url": new_url}` |
| Server.LinesRead | src/hybrid_edge/server.py:84-86 | the read loop ends at the first empty read, and every line handled before it is non-empty |
| Server.ScanLines | src/hybrid_edge/server.py:83-96 | every line up to the end of output is logged; at most one URL is published; nothing more is published once a URL has been found |
| Server.ScanPublishesFirstMatch | src/hybrid_edge/server.py:83-96 | nothing is published exactly when no handled line contains a URL; otherwise exactly the URL of the first such line is published |
| Server.TunnelCommand | src/hybrid_edge/server.py:71 | the tunnel runs over `http2` and targets `http://localhost:` followed by a numeral that reads back as the supervisor's port |
| Server.Start | src/hybrid_edge/server.py:58-98 | a failed spawn propagates its error and publishes nothing; the process handle is set exactly when a spawn succeeds, also when reading its output fails later; a `readline()` error propagates exactly when the loop reaches it before the end of output; every line before the end or the error is logged; at most one discovery update is sent |
| Server.ReadErrorKeepsPublication | src/hybrid_edge/server.py:83-98 | a read error does not undo the publication made before it, and the tunnel is left running for `stop` to terminate |
| Server.StartPublishesFirstMatch | src/hybrid_edge/server.py:83-96 | over any tunnel output, `start` calls the discovery update never when no line has a URL, and otherwise exactly once, for the URL of the first matching line; a `PATCH` is sent only when the Gist id and token are set |
| Server.RepeatedReadyLinePublishedOnce | src/hybrid_edge/server.py:92-96 | the ready line printed twice leads to exactly one publication |
| Server.Stop | src/hybrid_edge/server.py:102-104 | `stop` terminates exactly when a tunnel process was set by a successful spawn |
| Server.StopBeforeStartIsNoOp | src/hybrid_edge/server.py:102-104 | `stop` on a freshly built supervisor, or after a failed spawn, has no effect |
| Server.StopAfterStartTerminates | src/hybrid_edge/server.py:102-104 | after a successful spawn, `stop` terminates the tunnel |
| Gateway.RunProxy | src/hybrid_edge/proxy.py:7-16 | start-up fails on an unparsable `FLASK_PORT` before the secret is checked; with a valid port it refuses exactly when `SECRET_KEY` is missing or empty; otherwise it serves with that secret, the engine URL on `OLLAMA_PORT` and the parsed port |
| Gateway.DefaultPorts | src/hybrid_edge/proxy.py:8-16 | with only a secret set, the gateway serves on port 5000 and forwards to `http://localhost:11434/api/generate` |
| Gateway.SecureGateway | src/hybrid_edge/proxy.py:18-28 | a request without the exact header gets 403 and no engine call; the engine is called with the parsed body exactly when the header matches and the body was read; the engine's status and bytes are relayed; a failure answers 500 with the error text; the content type is always JSON |
| Gateway.ErrorTextReadsBack | src/hybrid_edge/proxy.py:22-28 | the body of an error response is a JSON document whose only member is `error`, holding the message |
| Gateway.SchemeCaseMatters | src/hybrid_edge/proxy.py:20-22 | a header that differs from the expected one only in the case of the scheme is rejected with 403 |
| Resolver.ReadRecord | src/hybrid_edge/sdk.py:30-32 | a record read fails exactly when its text is not a JSON object of strings; a decoded record gives a `url` exactly when the key is present, and its value is that of the last `url` member, as `data.get('url')` returns it |
| Resolver.RefreshConnection | src/hybrid_edge/sdk.py:24-41 | a successful read caches the record's `url` field, which may be absent or empty; a failed read clears the cache; nothing else about the client changes |
| Resolver.Connect | src/hybrid_edge/sdk.py:15-22 | a new client keeps its credentials and holds a usable address exactly when its first read found a non-empty URL |
| Resolver.Generate | src/hybrid_edge/sdk.py:43-76 | no directory read happens exactly when an address was cached and the reply was not tunnel-dead; at most two reads happen; without reads the client is unchanged; no request is sent exactly when no address could be found or the `Bearer <secret>` header cannot be sent (a line break, or a character above U+00FF); the first case gives the not-found error; in the second the address is kept and the call gives an `Error: ` message for the header, except that a header rejected only by `http.client`, on an `https` address whose connection is refused, gives the refused-connection error; a sent request carries `Bearer <secret>`, the prompt, the model and `stream: false`, and outside the tunnel-dead case it goes to the address the client keeps |
| Resolver.CachedAddressIsUsed | src/hybrid_edge/sdk.py:47-60 | with an address cached, the request goes straight to that address without reading the directory first, provided the header can be sent |
| Resolver.BearerSendable | src/hybrid_edge/sdk.py:58 | the header `Bearer <secret>` can be sent exactly when the secret holds no line break and no character above U+00FF |
| Resolver.LineBreakNotSendable | src/hybrid_edge/sdk.py:58 | a secret ending in a line feed is never sent |
| Resolver.SendableSplit | src/hybrid_edge/sdk.py:58 | a header value can be sent exactly when it passes both the check of `requests` (no carriage return, a line feed only at the very end) and that of `http.client` (Latin-1, line breaks only before a folded line) |
| Resolver.UnsendableSecretNeverSent | src/hybrid_edge/sdk.py:55-60 | with an unsendable secret nothing is sent, the address is kept and the directory is not read again; the call gives the not-found error when no address was found, the refused-connection error when the header passes the check of `requests`, the address is `https` and the connection is refused, and the header error otherwise |
| Resolver.CarriageReturnRejectedFirst | src/hybrid_edge/sdk.py:55-60 | a secret with a carriage return anywhere gives the header error, whatever the `POST` would have given, once an address was found |
| Resolver.FinalLineFeedOrder | src/hybrid_edge/sdk.py:55-74 | with a secret ending in a line feed and a refused connection, nothing is sent; the refused-connection error is reported for an `https` address and the header error for a plain `http` one |
| Resolver.FinalLineFeedOverTunnel | src/hybrid_edge/sdk.py:73-74 | for a cached tunnel address `https://x.trycloudflare.com`, the secret `k` followed by a line feed and a refused connection give the refused-connection error |
| Resolver.UnresolvedReadsOnce | src/hybrid_edge/sdk.py:47-50 | without an address, the directory is read once before sending; when that read yields no usable URL, the call returns the not-found error and sends nothing |
| Resolver.ReplyMessage | src/hybrid_edge/sdk.py:62-71 | every status other than 200 yields a text that starts with `Error`; a 200 whose body is not JSON yields `Error: ` and the decoding error; a decoded 200 yields its `response` field or the empty-response error; 403 and the tunnel-dead statuses yield their fixed messages |
| Resolver.ReplyKeepsAddress | src/hybrid_edge/sdk.py:62-76 | with an address cached, a 200 reply gives the engine's `response` field or the empty-response error, or `Error: ` and the decoding error when the body is not JSON; 403 gives the invalid-key error; any other status that is not tunnel-dead gives the status and the body text; none of them reads the directory or changes the address |
| Resolver.SentRequestOutcome | src/hybrid_edge/sdk.py:47-76 | once a request is sent, with a cached address or one found during the call, a refused connection, any other exception (`Error: ` and its text) and each reply give their messages; only a tunnel-dead status changes the address, to what the immediate re-read found |
| Resolver.TunnelDeathRereadsAtOnce | src/hybrid_edge/sdk.py:66-69 | a 502, 503 or 530 reply makes the same call read the directory again and cache its result, and the call reports the dead tunnel |
| Resolver.ConnectionRefusedKeepsAddress | src/hybrid_edge/sdk.py:73-74 | a refused connection is reported, the address stays cached and the directory is not read |
| Resolver.ResolveOnceThenServe | src/hybrid_edge/sdk.py:47-63 | starting unresolved, one read and a 200 reply give the engine's text, and an immediately following call with a 200 reply makes no directory read |
| Resolver.NextCallAfterTunnelDeath | src/hybrid_edge/sdk.py:66-69 | after a tunnel-dead reply, the next call goes directly to the address the immediate re-read found, and it reads the directory again only when that re-read found none |
| EndToEnd.ServerProxyAgree | src/hybrid_edge/server.py:33-35 | the gateway started in the environment the supervisor leaves behind serves with the supervisor's secret on the port the tunnel forwards to |
| EndToEnd.DefaultPortsAgree | src/hybrid_edge/server.py:21 | the supervisor's default port 5000, written as text, is the gateway's default `FLASK_PORT`, so the gateway serves on that port even when it finds no `FLASK_PORT` |
| EndToEnd.PublishThenResolve | src/hybrid_edge/sdk.py:31-32 | a client that reads the published record caches exactly the published URL |
| EndToEnd.ClientPassesGatewayIff | src/hybrid_edge/proxy.py:21 | the header the client sends passes the gateway exactly when client and gateway hold the same secret |
| EndToEnd.WrongHeaderRejected | src/hybrid_edge/proxy.py:21-22 | the bearer header of any other secret is refused with 403 and the engine is not called |
| EndToEnd.Delivered | src/hybrid_edge/sdk.py:62-71 | for an ASCII body, the client sees the gateway's status and a `response.text` holding the body's bytes one character each |
| EndToEnd.ForbiddenReported | src/hybrid_edge/sdk.py:64-65 | a 403 from the gateway, delivered to a client with a cached address, gives the invalid-key error with no directory read and the address kept |
| EndToEnd.WrongSecretReported | src/hybrid_edge/sdk.py:64-65 | a client whose (sendable) secret is wrong is answered with the gateway's ASCII 403 body, gets the invalid-key error, keeps its address, and the engine is never called |
| EndToEnd.RightSecretServed | src/hybrid_edge/proxy.py:24-26 | a client whose (sendable) secret is right sends its request, has the body forwarded to the engine, and gets the engine's answer as the result of the call, whatever text `requests` decodes from the body |
| EndToEnd.Deployment | src/hybrid_edge/server.py:83-96 | once the supervisor has published, a new client caches the URL of the first announced line; the configured gateway serves; a client whose secret can be sent has its request admitted exactly when it holds the supervisor's secret |

## Left out

- `load_dotenv()`. The environment is a parameter, taken as it stands after the `.env` file was loaded.
- Logging and `print`. The model keeps the raw lines as the logged output. The `line.strip()` at server.py:89 only affects the log.
- Threads and timing: the proxy thread, `time.sleep(2)`, and the timeouts of the two client calls (10 seconds for the directory read at sdk.py:29, 60 seconds for the `POST` at sdk.py:59). Each call is modelled by its outcome, so such a timeout is one of the failure outcomes.
- Gateway.SecureGateway: the engine call at proxy.py:25 has no timeout, so an engine that never answers blocks the handler for good. The model only has the outcomes of a call that returns or raises, so that wait is not represented.
- Server.UpdateServiceDiscovery: the `PATCH` at server.py:50 has no timeout, so a Gist API that never answers blocks `start` for good. The model only states the request that is sent, so that wait is not represented.
- The `KeyboardInterrupt` handler in `start`, because a signal is not a value the model can receive. `stop` itself is modelled.
- `main()` in server.py and the helpers in client.py and utils.py. The default port `main()` relies on is `Server.DefaultPort`. `get_binary_path` becomes the `binPath` parameter.
- The result of the Gist `PATCH`, because it only feeds the log. The model states the request that is sent.
- The directory address, including the `?t=<time>` cache-busting query. The clock and the network are replaced by the outcome of each read.
- The Flask and requests mechanics: routing, `app.run`, the HTTP method check, re-serializing `request.json` for the engine call, and the engine's reply body. The parsed request body is an opaque document, and the reply body is raw bytes.
- Decimal.ParseInt: accepts only an optional sign followed by ASCII digits. Python's `int()` also accepts surrounding white space, `_` between digits and non-ASCII digits, so such a `FLASK_PORT` is a start-up failure in the model but a valid port in Python.
- JsonText.ParseDocument: reads only objects whose members are all strings, which is what the record and the error bodies hold. Numbers, booleans, `null`, arrays and nested objects are not decoded. A lone surrogate escape, which Python accepts, is rejected here.
- Resolver.Generate: the parsed JSON of a reply is an input, so a `"response": null` field, for which Python returns `None` rather than text, is not represented. For the same reason, a reply body that is JSON but not an object is only modelled as a decoding failure.
- Resolver.Generate: for a secret that cannot be sent, the message is a fixed `Error: ` text (`Resolver.HeaderRejected`), not the exception text that `requests` or `http.client` produces, which depends on which check fails and on the library version.
- EndToEnd.Delivered: only ASCII bodies are decoded, which covers every error body the gateway writes. `requests` decodes other bytes as UTF-8, which is not modelled, so `EndToEnd.RightSecretServed` takes the decoded text of the engine's reply as an input.
- Resolver.ReadRecord: because the JSON reader only decodes objects whose members are all strings, a record that also holds a number, a boolean, `null`, an array or an object (such as `{"url": "https://…", "n": 1}`) is a failed read in the model, while Python's `data.get('url')` finds its `url`.
- Resolver.Generate: an address with leading white space is not taken as `https`, although `requests` strips that white space before it picks the scheme. An address that is not a valid URL raises while the request is prepared, before the header checks; the model does not order that error against the header error, and reports the header error for an unsendable secret.
- Resolver.RefreshConnection: a `url` field that is present but not a string is not represented, because the directory record only ever holds a string there.
- Server.Stop: the state of the process after `terminate()` is not modelled. `tunnel_process` stays set, so a second `stop` terminates again, as in the source.
