/**
 * The three parts together: the supervisor configures the gateway through
 * the environment and publishes the tunnel address, the client reads it
 * from the directory record, and the gateway admits the client's request
 * exactly when both hold the same secret.
 */
module EndToEnd {
  import opened Wrappers
  import opened Settings
  import Decimal
  import JsonText
  import TunnelUrl
  import Server
  import Gateway
  import Resolver

  /**
   * What the client sees of a gateway response with an ASCII body: the
   * status, `response.text` (the body decoded as UTF-8, which for ASCII bytes
   * is one character per byte), and how `response.json()` fared.
   */
  function Delivered(response: Gateway.Response, json: Resolver.ReplyJson): (reply: Resolver.Reply)
    requires Gateway.AsciiBody(response.body)
    ensures reply.status == response.status && reply.json == json
    ensures |reply.text| == |response.body| && forall i :: 0 <= i < |reply.text| ==> reply.text[i] as int == response.body[i] as int
  {
    Resolver.Reply(response.status, seq(|response.body|, i requires 0 <= i < |response.body| => response.body[i] as int as char), json)
  }

  /**
   * The gateway started in the environment a supervisor leaves behind serves
   * with the supervisor's secret on the supervisor's port, which is the port
   * the tunnel forwards to.
   */
  lemma ServerProxyAgree(gistId: Option<string>, githubToken: Option<string>, secretKey: Option<string>,
                         port: int, env: Env, binPath: string)
    requires Server.New(gistId, githubToken, secretKey, port, env).Success?
    ensures var built := Server.New(gistId, githubToken, secretKey, port, env).value;
            var start := Gateway.RunProxy(built.env);
            && start.Serving?
            && start.config.secretKey == built.server.secretKey
            && start.config.listenPort == port
            && Server.TunnelCommand(binPath, built.server.port)[5] == Server.LocalOrigin + Decimal.IntToString(start.config.listenPort)
  {
    Decimal.IntToStringRoundTrip(port);
  }

  /**
   * The supervisor's default port is the gateway's default port: `str(5000)`
   * is the gateway's fallback `"5000"`, so a gateway that finds no
   * `FLASK_PORT` still listens where a default supervisor's tunnel forwards.
   */
  lemma DefaultPortsAgree(env: Env)
    requires Truthy(GetEnv(env, "SECRET_KEY")) && "FLASK_PORT" !in env
    ensures Decimal.IntToString(Server.DefaultPort) == Gateway.DefaultListenPort
    ensures Gateway.RunProxy(env).Serving? && Gateway.RunProxy(env).config.listenPort == Server.DefaultPort
  {
    assert Decimal.NatToString(5) == "5";
    assert Decimal.NatToString(50) == "50";
    assert Decimal.NatToString(500) == "500";
    assert Decimal.NatToString(5000) == "5000";
    Decimal.IntToStringRoundTrip(Server.DefaultPort);
  }

  /** A published record, read back by a client, sets the client's address to the published URL. */
  lemma PublishThenResolve(server: Server.HybridServer, url: string, c: Resolver.Client)
    requires Truthy(server.gistId) && Truthy(server.githubToken)
    ensures var content := Server.UpdateServiceDiscovery(server, url).request.content;
            && Resolver.ReadRecord(content) == Resolver.DirectoryRecord(Some(url))
            && Resolver.RefreshConnection(c, Resolver.ReadRecord(content)).baseUrl == Some(url)
  {
    assert JsonText.Lookup([("url", url)], "url") == Some(url) by {
      assert [("url", url)][0].0 == "url";
    }
  }

  lemma BearerInjective(a: string, b: string)
    ensures "Bearer " + a == "Bearer " + b <==> a == b
  {
    if "Bearer " + a == "Bearer " + b {
      assert a == ("Bearer " + a)[7..];
      assert b == ("Bearer " + b)[7..];
    }
  }

  /** The header the client sends passes the gateway exactly when the two secrets are equal. */
  lemma ClientPassesGatewayIff(config: Gateway.ProxyConfig, c: Resolver.Client, prompt: string, model: string,
                               lookup: Resolver.DirectoryOutcome, post: Resolver.PostOutcome,
                               reread: Resolver.DirectoryOutcome)
    requires Resolver.Generate(c, prompt, model, lookup, post, reread).request.Some?
    ensures var request := Resolver.Generate(c, prompt, model, lookup, post, reread).request.value;
            Gateway.Authorized(config, Some(request.authorization)) <==> c.secretKey == config.secretKey
  {
    BearerInjective(c.secretKey, config.secretKey);
  }

  /**
   * A client holding the wrong secret is turned away without the engine
   * being called, reports the invalid key, and keeps its address.
   */
  lemma WrongSecretReported(config: Gateway.ProxyConfig, c: Resolver.Client, prompt: string, model: string,
                            document: string, engine: Gateway.EngineOutcome, json: Resolver.ReplyJson,
                            lookup: Resolver.DirectoryOutcome, reread: Resolver.DirectoryOutcome)
    requires Truthy(c.baseUrl) && c.secretKey != config.secretKey && Resolver.SendableHeader(c.secretKey)
    ensures var sent := Resolver.RequestFor(c.baseUrl.value, c.secretKey, prompt, model);
            var x := Gateway.SecureGateway(config, Gateway.Request(Some(sent.authorization), Gateway.Parsed(document)), engine);
            && x.call.None?
            && x.response == Gateway.Response(403, Gateway.JsonType, Gateway.ErrorBody(Gateway.Unauthorized))
            && Gateway.AsciiBody(x.response.body)
            && var g := Resolver.Generate(c, prompt, model, lookup, Resolver.Replied(Delivered(x.response, json)), reread);
               && g.message == Resolver.InvalidSecret
               && g.client == c && g.directoryReads == 0
  {
    Resolver.BearerSendable(c.secretKey);
    var sent := Resolver.RequestFor(c.baseUrl.value, c.secretKey, prompt, model);
    assert sent.authorization == "Bearer " + c.secretKey;
    WrongHeaderRejected(config, c.secretKey, document, engine);
    var x := Gateway.SecureGateway(config, Gateway.Request(Some(sent.authorization), Gateway.Parsed(document)), engine);
    ForbiddenReported(c, prompt, model, lookup, x.response, json, reread);
  }

  /** A 403 from the gateway reaches a client with a cached address as the invalid-key message. */
  lemma ForbiddenReported(c: Resolver.Client, prompt: string, model: string, lookup: Resolver.DirectoryOutcome,
                          response: Gateway.Response, json: Resolver.ReplyJson, reread: Resolver.DirectoryOutcome)
    requires Truthy(c.baseUrl) && Resolver.SendableHeader(Resolver.BearerHeader(c.secretKey))
    requires response.status == 403 && Gateway.AsciiBody(response.body)
    ensures var g := Resolver.Generate(c, prompt, model, lookup, Resolver.Replied(Delivered(response, json)), reread);
            g.message == Resolver.InvalidSecret && g.client == c && g.directoryReads == 0
  {
    Resolver.ReplyKeepsAddress(c, prompt, model, lookup, Delivered(response, json), reread);
  }

  /** The bearer header of any other secret is refused with 403 before the engine is called. */
  lemma WrongHeaderRejected(config: Gateway.ProxyConfig, secret: string, document: string, engine: Gateway.EngineOutcome)
    requires secret != config.secretKey
    ensures var x := Gateway.SecureGateway(config, Gateway.Request(Some("Bearer " + secret), Gateway.Parsed(document)), engine);
            x.response == Gateway.Response(403, Gateway.JsonType, Gateway.ErrorBody(Gateway.Unauthorized)) && x.call.None?
  {
    BearerInjective(secret, config.secretKey);
  }

  /**
   * A client holding the right secret has its request forwarded to the
   * engine, and the engine's answer becomes the call's result.
   */
  lemma RightSecretServed(config: Gateway.ProxyConfig, c: Resolver.Client, prompt: string, model: string,
                          document: string, content: Gateway.Bytes, text: string, answer: string,
                          lookup: Resolver.DirectoryOutcome, reread: Resolver.DirectoryOutcome)
    requires Truthy(c.baseUrl) && c.secretKey == config.secretKey && Resolver.SendableHeader(c.secretKey)
    ensures var sent := Resolver.RequestFor(c.baseUrl.value, c.secretKey, prompt, model);
            var x := Gateway.SecureGateway(config, Gateway.Request(Some(sent.authorization), Gateway.Parsed(document)),
                                           Gateway.EngineReplied(200, content));
            var g := Resolver.Generate(c, prompt, model, lookup,
                                       Resolver.Replied(Resolver.Reply(x.response.status, text, Resolver.JsonObject(Some(answer)))),
                                       reread);
            && x.call == Some(Gateway.EngineCall(config.engineUrl, document))
            && x.response.status == 200
            && g.request == Some(sent)
            && g.message == answer
            && g.client == c && g.directoryReads == 0
  {
    Resolver.BearerSendable(c.secretKey);
  }

  /**
   * The whole deployment: when the tunnel announces itself and the directory
   * is configured, a client created afterwards resolves the first announced
   * URL, and its request is admitted by the gateway that the supervisor
   * configured exactly when it holds the supervisor's secret.
   */
  lemma Deployment(gistId: Option<string>, githubToken: Option<string>, secretKey: Option<string>,
                   port: int, env: Env, binPath: string, lines: seq<string>,
                   username: string, directoryId: string, clientSecret: string, prompt: string,
                   lookup: Resolver.DirectoryOutcome, post: Resolver.PostOutcome, reread: Resolver.DirectoryOutcome)
    requires Server.New(gistId, githubToken, secretKey, port, env).Success?
    requires Resolver.SendableHeader(clientSecret)
    requires var server := Server.New(gistId, githubToken, secretKey, port, env).value.server;
             Truthy(server.gistId) && Truthy(server.githubToken) &&
             Server.Start(server, binPath, Server.Spawned(lines)).discovery != []
    ensures var built := Server.New(gistId, githubToken, secretKey, port, env).value;
            var run := Server.Start(built.server, binPath, Server.Spawned(lines));
            var record := Resolver.ReadRecord(run.discovery[0].request.content);
            var c := Resolver.Connect(username, directoryId, clientSecret, record);
            var g := Resolver.Generate(c, prompt, Resolver.DefaultModel, lookup, post, reread);
            var proxy := Gateway.RunProxy(built.env);
            && proxy.Serving?
            && Truthy(c.baseUrl) && TunnelUrl.IsTunnelUrl(c.baseUrl.value)
            && (exists k :: Server.FirstMatchingLine(lines, k) && c.baseUrl == TunnelUrl.Find(lines[k]))
            && g.request.Some?
            && (Gateway.Authorized(proxy.config, Some(g.request.value.authorization)) <==> clientSecret == built.server.secretKey)
  {
    Resolver.BearerSendable(clientSecret);
    var built := Server.New(gistId, githubToken, secretKey, port, env).value;
    var server := built.server;
    ServerProxyAgree(gistId, githubToken, secretKey, port, env, binPath);
    Server.StartPublishesFirstMatch(server, binPath, lines);
    var run := Server.Start(server, binPath, Server.Spawned(lines));
    var k :| Server.FirstMatchingLine(lines, k) &&
             run.discovery == [Server.UpdateServiceDiscovery(server, TunnelUrl.Find(lines[k]).value)];
    var url := TunnelUrl.Find(lines[k]).value;
    PublishThenResolve(server, url, Resolver.Client(username, directoryId, clientSecret, None));
    var c := Resolver.Connect(username, directoryId, clientSecret, Resolver.ReadRecord(run.discovery[0].request.content));
    assert c.baseUrl == Some(url);
    ClientPassesGatewayIff(Gateway.RunProxy(built.env).config, c, prompt, Resolver.DefaultModel, lookup, post, reread);
  }
}
