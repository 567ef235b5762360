/**
 * The client of src/hybrid_edge/sdk.py (`HybridLLM`): it caches the node's
 * public address read from the directory record and sends authenticated
 * generate requests to it.
 *
 * The directory read and the `POST` are replaced by their outcomes, so a
 * call of `generate` is a pure function of the cached state and the
 * outcomes of the reads and the request it makes.
 */
module Resolver {
  import opened Wrappers
  import opened Settings
  import Decimal
  import JsonText

  const NoNodeUrl: string := "Error: Could not find Edge Node URL."
  const EmptyResponse: string := "Error: Empty response"
  const InvalidSecret: string := "Error: Invalid Secret Key (403)"
  const TunnelDied: string := "Error: Tunnel connection died. Try again."
  const ConnectionRefusedMessage: string := "Error: Connection Refused (Tunnel Down)"
  const DefaultModel: string := "llama3.2"
  const GeneratePath: string := "/api/generate"

  /**
   * The message for a secret that cannot be sent in a header. Python gives
   * `"Error: "` and the text of the exception `requests` or `http.client`
   * raises; that text is not reproduced here.
   */
  const HeaderRejected: string := "Error: invalid Authorization header value"

  /** The client's fields; `baseUrl` is the cached node address (`None`, empty, or a URL). */
  datatype Client = Client(username: string, gistId: string, secretKey: string, baseUrl: Option<string>)

  /**
   * One read of the directory record: it failed (transport error, HTTP error
   * status, or a body that is not a JSON object), or it gave the record's
   * `url` field, which may be absent.
   */
  datatype DirectoryOutcome = DirectoryFailed | DirectoryRecord(url: Option<string>)

  /** The outcome of reading a record whose raw text is `text`: `r.json()` then `data.get('url')`. */
  function ReadRecord(text: string): (r: DirectoryOutcome)
    ensures r.DirectoryFailed? <==> JsonText.ParseDocument(text).None?
    ensures r.DirectoryRecord? ==>
              (r.url.Some? <==> exists i :: 0 <= i < |JsonText.ParseDocument(text).value| &&
                                             JsonText.ParseDocument(text).value[i].0 == "url")
    ensures r.DirectoryRecord? ==> r.url == JsonText.Lookup(JsonText.ParseDocument(text).value, "url")
  {
    match JsonText.ParseDocument(text)
    case None => DirectoryFailed
    case Some(members) => DirectoryRecord(JsonText.Lookup(members, "url"))
  }

  /**
   * `refresh_connection()`: the cached address becomes the record's `url`
   * field (possibly absent or empty), or `None` when the read failed.
   */
  function RefreshConnection(c: Client, read: DirectoryOutcome): (c': Client)
    ensures c' == c.(baseUrl := c'.baseUrl)
    ensures read.DirectoryRecord? ==> c'.baseUrl == read.url
    ensures read.DirectoryFailed? ==> c'.baseUrl == None
  {
    c.(baseUrl := if read.DirectoryRecord? then read.url else None)
  }

  /** `HybridLLM(username, gist_id, secret_key)`: starts unresolved and reads the directory once. */
  function Connect(username: string, gistId: string, secretKey: string, read: DirectoryOutcome): (c: Client)
    ensures c.username == username && c.gistId == gistId && c.secretKey == secretKey
    ensures Truthy(c.baseUrl) <==> read.DirectoryRecord? && Truthy(read.url)
  {
    RefreshConnection(Client(username, gistId, secretKey, None), read)
  }

  /** The parsed body of a reply: `response.json()` raised, or it is an object with maybe a `response` field. */
  datatype ReplyJson = NotJson(error: string) | JsonObject(response: Option<string>)

  datatype Reply = Reply(status: int, text: string, json: ReplyJson)

  /**
   * The outcome of the `POST`: a reply, a `ConnectionError` (which is what
   * every failure to open the connection raises), or another exception.
   */
  datatype PostOutcome = Replied(reply: Reply) | ConnectionRefused | Raised(error: string)

  /** The request `generate` sends: `POST <base>/api/generate` with a bearer header and the body `{model, prompt, stream}`. */
  datatype GenerateRequest = GenerateRequest(
    url: string,
    authorization: string,
    model: string,
    prompt: string,
    stream: bool)

  function RequestFor(baseUrl: string, secretKey: string, prompt: string, model: string): GenerateRequest {
    GenerateRequest(baseUrl + GeneratePath, BearerHeader(secretKey), model, prompt, false)
  }

  /** The `Authorization` header value the client sends. */
  function BearerHeader(secretKey: string): string {
    "Bearer " + secretKey
  }

  /**
   * Whether a header value can be sent at all: it passes both the check
   * `requests` makes while preparing the request and the one `http.client`
   * makes while writing the header (`SendableSplit`). So it holds no carriage
   * return, no line feed and no character above U+00FF.
   */
  predicate SendableHeader(value: string) {
    forall i :: 0 <= i < |value| ==> value[i] as int <= 0xFF && value[i] != '\r' && value[i] != '\n'
  }

  /**
   * The check `requests` makes while preparing the request, before any
   * connection: the value must match `^\S[^\r\n]*$|^$` (the first character
   * of a bearer header is never blank). Python's `$` also matches just before
   * a final line feed, so only a carriage return anywhere, or a line feed
   * that is not the last character, fails here.
   */
  predicate PreparableHeader(value: string) {
    forall i :: 0 <= i < |value| ==> value[i] != '\r' && (value[i] == '\n' ==> i == |value| - 1)
  }

  /**
   * The check `http.client` makes while writing the header: the value must
   * encode as Latin-1, and every line break must be allowed by `LegalBreakAt`.
   */
  predicate EncodableHeader(value: string) {
    forall i :: 0 <= i < |value| ==> value[i] as int <= 0xFF && LegalBreakAt(value, i)
  }

  /**
   * `http.client` allows a line feed or a carriage return only as the start
   * of a folded line: followed by a space or a tab, or for a carriage return
   * also by a line feed.
   */
  predicate LegalBreakAt(value: string, i: nat)
    requires i < |value|
  {
    && (value[i] == '\n' ==> i + 1 < |value| && (value[i + 1] == ' ' || value[i + 1] == '\t'))
    && (value[i] == '\r' ==> i + 1 < |value| && (value[i + 1] == ' ' || value[i + 1] == '\t' || value[i + 1] == '\n'))
  }

  /** A value can be sent exactly when it passes both checks on its way out. */
  lemma SendableSplit(value: string)
    ensures SendableHeader(value) <==> PreparableHeader(value) && EncodableHeader(value)
  {
    if PreparableHeader(value) && EncodableHeader(value) {
      forall i | 0 <= i < |value| ensures value[i] != '\n' {
        assert LegalBreakAt(value, i);
      }
    }
  }

  /**
   * Whether the request goes over TLS (`https`, in any letter case), so that
   * `urllib3` opens the connection before it writes the headers; over plain
   * `http` the headers are written first.
   */
  predicate SecureAddress(url: string) {
    |url| >= 8 && forall i :: 0 <= i < 8 ==> LowerAscii(url[i]) == HttpsPrefix[i]
  }

  const HttpsPrefix: string := "https://"

  function LowerAscii(c: char): char {
    if 'A' <= c <= 'Z' then (c as int + 32) as char else c
  }

  /** The bearer header can be sent exactly when the secret itself could be. */
  lemma BearerSendable(secretKey: string)
    ensures SendableHeader(BearerHeader(secretKey)) <==> SendableHeader(secretKey)
  {
    var h := BearerHeader(secretKey);
    assert forall i :: 0 <= i < |secretKey| ==> h[7 + i] == secretKey[i];
    if SendableHeader(secretKey) {
      forall i | 0 <= i < |h| ensures h[i] as int <= 0xFF && h[i] != '\r' && h[i] != '\n' {
        if i >= 7 {
          assert h[i] == secretKey[i - 7];
        }
      }
    }
  }

  /** A secret holding a line break is never sent. */
  lemma LineBreakNotSendable(secretKey: string)
    ensures !SendableHeader(BearerHeader(secretKey + "\n"))
  {
    var h := BearerHeader(secretKey + "\n");
    assert h[|h| - 1] == '\n';
  }

  /** Whether a call made with `c` ends with a tunnel-dead reply and so reads the directory again. */
  predicate Rereads(c: Client, post: PostOutcome) {
    SendableHeader(BearerHeader(c.secretKey)) && post.Replied? && TunnelDead(post.reply.status)
  }

  /** The statuses taken to mean that the tunnel behind the cached address is gone. */
  predicate TunnelDead(status: int) {
    status == 530 || status == 502 || status == 503
  }

  /**
   * One `generate` call: the returned text, the client afterwards, how many
   * times the directory was read, and the request sent (if any).
   */
  datatype Generation = Generation(message: string, client: Client, directoryReads: nat, request: Option<GenerateRequest>)

  /** The message for a reply, as the status dispatch of `generate` chooses it. */
  function ReplyMessage(reply: Reply): (m: string)
    ensures reply.status != 200 ==> |m| > 5 && m[..5] == "Error"
    ensures reply.status == 200 && reply.json.NotJson? ==> m == "Error: " + reply.json.error
    ensures reply.status == 200 && reply.json.JsonObject? ==> m == reply.json.response.GetOr(EmptyResponse)
    ensures reply.status == 403 ==> m == InvalidSecret
    ensures TunnelDead(reply.status) ==> m == TunnelDied
  {
    assert InvalidSecret[..5] == "Error";
    assert TunnelDied[..5] == "Error" by {
      assert TunnelDied[0] == 'E' && TunnelDied[1] == 'r' && TunnelDied[2] == 'r' && TunnelDied[3] == 'o' && TunnelDied[4] == 'r';
    }
    if reply.status == 200 then
      match reply.json
      case NotJson(e) => "Error: " + e
      case JsonObject(field) => field.GetOr(EmptyResponse)
    else if reply.status == 403 then InvalidSecret
    else if TunnelDead(reply.status) then TunnelDied
    else "Error " + Decimal.IntToString(reply.status) + ": " + reply.text
  }

  /** The client once `generate` has read the directory, which it does only when no usable address is cached. */
  function Resolved(c: Client, lookup: DirectoryOutcome): Client {
    if Truthy(c.baseUrl) then c else RefreshConnection(c, lookup)
  }

  /**
   * `generate(prompt, model)`: read the directory first only when no usable
   * address is cached (`lookup`), give up if there is still none, raise if
   * the header cannot be sent, otherwise send the request (`post`); on a
   * tunnel-dead status read the directory again at once (`reread`) and cache
   * what it gives.
   *
   * A header that fails the check of `requests` raises before any
   * connection. One that fails only the check of `http.client` raises when
   * the headers are written; over TLS the connection is opened before that,
   * so a connection that cannot be opened (`ConnectionRefused`) is reported
   * instead.
   */
  function Generate(c: Client, prompt: string, model: string,
                    lookup: DirectoryOutcome, post: PostOutcome, reread: DirectoryOutcome): (g: Generation)
    ensures g.client == c.(baseUrl := g.client.baseUrl)
    ensures g.directoryReads <= 2
    ensures g.directoryReads == 0 <==> Truthy(c.baseUrl) && !Rereads(c, post)
    ensures g.directoryReads == 0 ==> g.client == c
    ensures g.request.None? <==> !Truthy(Resolved(c, lookup).baseUrl) || !SendableHeader(BearerHeader(c.secretKey))
    ensures !Truthy(Resolved(c, lookup).baseUrl) ==>
              g.message == NoNodeUrl && !Truthy(g.client.baseUrl) && g.directoryReads == 1
    ensures Truthy(Resolved(c, lookup).baseUrl) && !SendableHeader(BearerHeader(c.secretKey)) ==>
              && g.client == Resolved(c, lookup) && g.directoryReads <= 1
              && g.message == (if && PreparableHeader(BearerHeader(c.secretKey))
                                  && SecureAddress(Resolved(c, lookup).baseUrl.value + GeneratePath)
                                  && post.ConnectionRefused?
                               then ConnectionRefusedMessage else HeaderRejected)
    ensures g.request.Some? ==> && g.request.value.authorization == BearerHeader(c.secretKey)
                                && SendableHeader(g.request.value.authorization)
                                && g.request.value.prompt == prompt
                                && g.request.value.model == model
                                && !g.request.value.stream
    ensures Truthy(c.baseUrl) && SendableHeader(BearerHeader(c.secretKey)) ==>
              g.request == Some(RequestFor(c.baseUrl.value, c.secretKey, prompt, model))
    ensures g.request.Some? && !Rereads(c, post) ==>
              Truthy(g.client.baseUrl) && g.request.value.url == g.client.baseUrl.value + GeneratePath
  {
    var c1 := Resolved(c, lookup);
    var n := if Truthy(c.baseUrl) then 0 else 1;
    if !Truthy(c1.baseUrl) then
      Generation(NoNodeUrl, c1, n, None)
    else
      var header := BearerHeader(c1.secretKey);
      SendableSplit(header);
      if !PreparableHeader(header) then
        Generation(HeaderRejected, c1, n, None)
      else if !EncodableHeader(header) then
        if SecureAddress(c1.baseUrl.value + GeneratePath) && post.ConnectionRefused? then
          Generation(ConnectionRefusedMessage, c1, n, None)
        else
          Generation(HeaderRejected, c1, n, None)
      else
        var request := Some(RequestFor(c1.baseUrl.value, c1.secretKey, prompt, model));
        match post
        case ConnectionRefused => Generation(ConnectionRefusedMessage, c1, n, request)
        case Raised(e) => Generation("Error: " + e, c1, n, request)
        case Replied(reply) =>
          if TunnelDead(reply.status) then
            Generation(ReplyMessage(reply), RefreshConnection(c1, reread), n + 1, request)
          else
            Generation(ReplyMessage(reply), c1, n, request)
  }

  /** With an address cached, the request goes straight to it: no directory read precedes it. */
  lemma CachedAddressIsUsed(c: Client, prompt: string, model: string,
                            lookup: DirectoryOutcome, post: PostOutcome, reread: DirectoryOutcome)
    requires Truthy(c.baseUrl)
    ensures var g := Generate(c, prompt, model, lookup, post, reread);
            && g.request == (if SendableHeader(BearerHeader(c.secretKey))
                             then Some(RequestFor(c.baseUrl.value, c.secretKey, prompt, model)) else None)
            && g.directoryReads == (if Rereads(c, post) then 1 else 0)
  {
  }

  /**
   * With no address cached, the directory is read exactly once before
   * sending; if that read gives no usable address, the call gives up without
   * sending anything.
   */
  lemma UnresolvedReadsOnce(c: Client, prompt: string, model: string,
                            lookup: DirectoryOutcome, post: PostOutcome, reread: DirectoryOutcome)
    requires !Truthy(c.baseUrl)
    ensures var g := Generate(c, prompt, model, lookup, post, reread);
            var c1 := RefreshConnection(c, lookup);
            && (!Truthy(c1.baseUrl) ==> g == Generation(NoNodeUrl, c1, 1, None))
            && (Truthy(c1.baseUrl) && SendableHeader(BearerHeader(c.secretKey)) ==>
                  g.request == Some(RequestFor(c1.baseUrl.value, c.secretKey, prompt, model)))
            && (Truthy(c1.baseUrl) ==> g.directoryReads == (if Rereads(c, post) then 2 else 1))
  {
  }

  /** The replies other than a tunnel-dead status leave the cached address as the request used it. */
  lemma ReplyKeepsAddress(c: Client, prompt: string, model: string,
                          lookup: DirectoryOutcome, reply: Reply, reread: DirectoryOutcome)
    requires Truthy(c.baseUrl)
    requires !TunnelDead(reply.status)
    requires SendableHeader(BearerHeader(c.secretKey))
    ensures var g := Generate(c, prompt, model, lookup, Replied(reply), reread);
            && g.client == c && g.directoryReads == 0
            && (reply.status == 200 && reply.json.JsonObject? && reply.json.response.Some? ==>
                  g.message == reply.json.response.value)
            && (reply.status == 200 && reply.json.JsonObject? && reply.json.response.None? ==>
                  g.message == EmptyResponse)
            && (reply.status == 200 && reply.json.NotJson? ==> g.message == "Error: " + reply.json.error)
            && (reply.status == 403 ==> g.message == InvalidSecret)
            && (reply.status != 200 && reply.status != 403 ==>
                  g.message == "Error " + Decimal.IntToString(reply.status) + ": " + reply.text)
  {
  }

  /**
   * A tunnel-dead status makes the same call read the directory again at
   * once and cache what that read gives; the call reports the dead tunnel.
   */
  lemma TunnelDeathRereadsAtOnce(c: Client, prompt: string, model: string,
                                 lookup: DirectoryOutcome, reply: Reply, reread: DirectoryOutcome)
    requires Truthy(c.baseUrl)
    requires TunnelDead(reply.status)
    requires SendableHeader(BearerHeader(c.secretKey))
    ensures var g := Generate(c, prompt, model, lookup, Replied(reply), reread);
            && g.message == TunnelDied
            && g.directoryReads == 1
            && g.client == RefreshConnection(c, reread)
  {
  }

  /** A refused connection is reported, but the cached address is kept. */
  lemma ConnectionRefusedKeepsAddress(c: Client, prompt: string, model: string,
                                      lookup: DirectoryOutcome, reread: DirectoryOutcome)
    requires Truthy(c.baseUrl)
    requires SendableHeader(BearerHeader(c.secretKey))
    ensures var g := Generate(c, prompt, model, lookup, ConnectionRefused, reread);
            g.message == ConnectionRefusedMessage && g.client == c && g.directoryReads == 0
  {
  }

  /**
   * Starting unresolved, a successful read and a 200 reply give the engine's
   * text, and a following call that also gets 200 reads the directory no more.
   */
  lemma ResolveOnceThenServe(c: Client, url: string, first: string, second: string,
                             lookup: DirectoryOutcome, unused: DirectoryOutcome)
    requires !Truthy(c.baseUrl)
    requires url != ""
    requires SendableHeader(BearerHeader(c.secretKey))
    ensures var g1 := Generate(c, "p1", DefaultModel, DirectoryRecord(Some(url)),
                               Replied(Reply(200, first, JsonObject(Some(first)))), unused);
            var g2 := Generate(g1.client, "p2", DefaultModel, lookup,
                               Replied(Reply(200, second, JsonObject(Some(second)))), unused);
            && g1.message == first && g1.directoryReads == 1
            && g2.message == second && g2.directoryReads == 0
            && g2.request == Some(RequestFor(url, c.secretKey, "p2", DefaultModel))
  {
  }

  /**
   * After a tunnel-dead status, the next call reads the directory again only
   * if the immediate re-read found no usable address; a re-read that found
   * one sends the next request to it directly.
   */
  lemma NextCallAfterTunnelDeath(c: Client, reply: Reply, reread: DirectoryOutcome,
                                 lookup: DirectoryOutcome, post: PostOutcome, unused: DirectoryOutcome)
    requires Truthy(c.baseUrl) && TunnelDead(reply.status)
    requires SendableHeader(BearerHeader(c.secretKey))
    ensures var g1 := Generate(c, "p1", DefaultModel, lookup, Replied(reply), reread);
            var g2 := Generate(g1.client, "p2", DefaultModel, lookup, post, unused);
            && (reread.DirectoryRecord? && Truthy(reread.url) ==>
                  g2.request == Some(RequestFor(reread.url.value, c.secretKey, "p2", DefaultModel)))
            && (!(reread.DirectoryRecord? && Truthy(reread.url)) ==> g2.directoryReads >= 1)
  {
  }

  /**
   * Once a request was sent, whether with a cached address or one found during
   * the call, the returned text is chosen by the outcome of the `POST` alone,
   * and only a tunnel-dead status replaces the cached address, by the re-read.
   */
  lemma SentRequestOutcome(c: Client, prompt: string, model: string,
                           lookup: DirectoryOutcome, post: PostOutcome, reread: DirectoryOutcome)
    requires Generate(c, prompt, model, lookup, post, reread).request.Some?
    ensures var g := Generate(c, prompt, model, lookup, post, reread);
            var c1 := if Truthy(c.baseUrl) then c else RefreshConnection(c, lookup);
            && Truthy(c1.baseUrl)
            && g.request == Some(RequestFor(c1.baseUrl.value, c.secretKey, prompt, model))
            && (post.ConnectionRefused? ==> g.message == ConnectionRefusedMessage && g.client == c1)
            && (post.Raised? ==> g.message == "Error: " + post.error && g.client == c1)
            && (post.Replied? ==> g.message == ReplyMessage(post.reply))
            && (post.Replied? && post.reply.status == 200 && post.reply.json.NotJson? ==>
                  g.message == "Error: " + post.reply.json.error)
            && (post.Replied? && !TunnelDead(post.reply.status) ==> g.client == c1)
            && (post.Replied? && TunnelDead(post.reply.status) ==>
                  g.message == TunnelDied && g.client == RefreshConnection(c, reread))
  {
  }

  /**
   * A secret that cannot be sent in a header is never sent, and the address
   * found is kept without reading the directory again. The call reports the
   * header error, except when the header passes the check of `requests`,
   * the request goes over TLS and the connection cannot be opened: then the
   * refused connection is reported, as for a sendable secret.
   */
  lemma UnsendableSecretNeverSent(c: Client, prompt: string, model: string,
                                  lookup: DirectoryOutcome, post: PostOutcome, reread: DirectoryOutcome)
    requires !SendableHeader(c.secretKey)
    ensures var g := Generate(c, prompt, model, lookup, post, reread);
            var c1 := if Truthy(c.baseUrl) then c else RefreshConnection(c, lookup);
            && g.request.None?
            && g.client == c1
            && g.message == (if !Truthy(c1.baseUrl) then NoNodeUrl
                             else if && PreparableHeader(BearerHeader(c.secretKey))
                                     && SecureAddress(c1.baseUrl.value + GeneratePath)
                                     && post.ConnectionRefused?
                             then ConnectionRefusedMessage
                             else HeaderRejected)
            && g.directoryReads == (if Truthy(c.baseUrl) then 0 else 1)
  {
    BearerSendable(c.secretKey);
  }

  /** A carriage return anywhere in the secret is rejected before any connection, whatever the `POST` would give. */
  lemma CarriageReturnRejectedFirst(c: Client, prompt: string, model: string,
                                    lookup: DirectoryOutcome, post: PostOutcome, reread: DirectoryOutcome, i: nat)
    requires i < |c.secretKey| && c.secretKey[i] == '\r'
    requires Truthy(Resolved(c, lookup).baseUrl)
    ensures var g := Generate(c, prompt, model, lookup, post, reread);
            g.message == HeaderRejected && g.request.None?
  {
    var h := BearerHeader(c.secretKey);
    assert h[7 + i] == '\r';
  }

  /**
   * A secret ending in a line feed passes the check of `requests`, so with a
   * refused connection the caller sees the refusal over TLS and the header
   * error over plain `http`; nothing is sent either way.
   */
  lemma FinalLineFeedOrder(username: string, gistId: string, key: string, url: string,
                           prompt: string, model: string, lookup: DirectoryOutcome, reread: DirectoryOutcome)
    requires SendableHeader(key) && url != ""
    ensures var g := Generate(Client(username, gistId, key + "\n", Some(url)), prompt, model,
                              lookup, ConnectionRefused, reread);
            && g.request.None?
            && g.message == (if SecureAddress(url + GeneratePath) then ConnectionRefusedMessage else HeaderRejected)
  {
    var h := BearerHeader(key + "\n");
    assert forall j :: 0 <= j < |key| ==> h[7 + j] == key[j];
    assert h[|h| - 1] == '\n';
    assert PreparableHeader(h) by {
      forall j | 0 <= j < |h| ensures h[j] != '\r' && (h[j] == '\n' ==> j == |h| - 1) {
        if 7 <= j < |h| - 1 {
          assert h[j] == key[j - 7];
        }
      }
    }
    assert !EncodableHeader(h);
  }

  /** The address a tunnel publishes, with a secret ending in a line feed and a refused connection. */
  lemma FinalLineFeedOverTunnel()
    ensures var g := Generate(Client("u", "g", "k\n", Some("https://x.trycloudflare.com")), "p", DefaultModel,
                              DirectoryFailed, ConnectionRefused, DirectoryFailed);
            g.message == ConnectionRefusedMessage && g.request.None?
  {
    var url := "https://x.trycloudflare.com";
    assert SecureAddress(url + GeneratePath) by {
      forall i | 0 <= i < 8 ensures LowerAscii((url + GeneratePath)[i]) == HttpsPrefix[i] {
        assert (url + GeneratePath)[i] == url[i];
      }
    }
    assert SendableHeader("k") && "k" + "\n" == "k\n";
    FinalLineFeedOrder("u", "g", "k", "https://x.trycloudflare.com", "p", DefaultModel, DirectoryFailed, DirectoryFailed);
  }
}
