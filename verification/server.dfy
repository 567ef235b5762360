/**
 * The node-side supervisor (`HybridServer` in src/hybrid_edge/server.py):
 * construction with its secret check, publication of the public URL to the
 * directory record, the scan of the tunnel's output that publishes at most
 * once, and `stop`.
 *
 * The tunnel subprocess is replaced by the sequence of values its
 * `readline()` returns, and each publication by the request it would send.
 */
module Server {
  import opened Wrappers
  import opened Settings
  import Decimal
  import JsonText
  import TunnelUrl

  const SecretRequired: string := "SECRET_KEY is required in .env or arguments."
  /** The `ValueError` text of `os.environ[...] = value` when the value holds a NUL character. */
  const EmbeddedNull: string := "embedded null byte"
  const GistApi: string := "https://api.github.com/gists/"
  const RecordFile: string := "tunnel.json"
  const LocalOrigin: string := "http://localhost:"
  /** The port `HybridServer()` listens on when none is given. */
  const DefaultPort: int := 5000

  /**
   * The supervisor's fields; `tunnelStarted` records whether `tunnel_process`
   * has been set by a successful spawn.
   */
  datatype HybridServer = HybridServer(
    gistId: Option<string>,
    githubToken: Option<string>,
    secretKey: string,
    port: int,
    tunnelStarted: bool)

  /** A constructed supervisor together with the environment it leaves for the gateway. */
  datatype Construction = Construction(server: HybridServer, env: Env)

  /**
   * `HybridServer(gist_id, github_token, secret_key, port)` in environment
   * `env` (as left by `load_dotenv`): each setting is the argument when that
   * is truthy and the environment value otherwise; an empty or absent secret
   * raises `ValueError`; otherwise the secret and the port are written back
   * into the environment for the gateway, which raises `ValueError` too when
   * the secret holds a NUL character (a POSIX environment cannot store one).
   */
  function New(gistId: Option<string>, githubToken: Option<string>, secretKey: Option<string>,
               port: int, env: Env): (r: Result<Construction, string>)
    ensures r.Failure? <==> || !Truthy(OrElse(secretKey, GetEnv(env, "SECRET_KEY")))
                            || '\0' in OrElse(secretKey, GetEnv(env, "SECRET_KEY")).value
    ensures r.Failure? ==> r.error == (if Truthy(OrElse(secretKey, GetEnv(env, "SECRET_KEY")))
                                       then EmbeddedNull else SecretRequired)
    ensures r.Success? ==> && Some(r.value.server.secretKey) == OrElse(secretKey, GetEnv(env, "SECRET_KEY"))
                           && r.value.server.gistId == OrElse(gistId, GetEnv(env, "GIST_ID"))
                           && r.value.server.githubToken == OrElse(githubToken, GetEnv(env, "GITHUB_TOKEN"))
                           && r.value.server.port == port
                           && !r.value.server.tunnelStarted
    ensures r.Success? ==> && GetEnv(r.value.env, "SECRET_KEY") == Some(r.value.server.secretKey)
                           && GetEnv(r.value.env, "FLASK_PORT") == Some(Decimal.IntToString(port))
                           && forall k :: k in env && k != "SECRET_KEY" && k != "FLASK_PORT" ==>
                                k in r.value.env && r.value.env[k] == env[k]
  {
    var secret := OrElse(secretKey, GetEnv(env, "SECRET_KEY"));
    if !Truthy(secret) then Failure(SecretRequired)
    else if '\0' in secret.value then Failure(EmbeddedNull)
    else
      var server := HybridServer(OrElse(gistId, GetEnv(env, "GIST_ID")),
                                 OrElse(githubToken, GetEnv(env, "GITHUB_TOKEN")),
                                 secret.value, port, false);
      Success(Construction(server, env["SECRET_KEY" := secret.value]["FLASK_PORT" := Decimal.IntToString(port)]))
  }

  // ------------------------------------------------------- service discovery

  /** The `PATCH` of the directory record: target, headers, and the one file it rewrites. */
  datatype PatchRequest = PatchRequest(
    url: string,
    authorization: string,
    accept: string,
    fileName: string,
    content: string)

  datatype Discovery = Skipped | Patch(request: PatchRequest)

  /** The content written to the record file: `json.dumps({"url": url})`. */
  function RecordContent(url: string): string {
    JsonText.EncodeObject([("url", url)], JsonText.Spaced)
  }

  /**
   * `_update_service_discovery(new_url)`: nothing when the gist id or the
   * token is missing or empty, otherwise a `PATCH` whose record file holds
   * the URL as JSON. The outcome of the request only feeds the log.
   */
  function UpdateServiceDiscovery(server: HybridServer, newUrl: string): (d: Discovery)
    ensures d.Skipped? <==> !Truthy(server.gistId) || !Truthy(server.githubToken)
    ensures d.Patch? ==> && d.request.url == GistApi + server.gistId.value
                         && d.request.authorization == "token " + server.githubToken.value
                         && d.request.accept == "application/vnd.github+json"
                         && d.request.fileName == RecordFile
    ensures d.Patch? ==> JsonText.ParseDocument(d.request.content) == Some([("url", newUrl)])
  {
    if !Truthy(server.gistId) || !Truthy(server.githubToken) then Skipped
    else
      JsonText.DocumentRoundTrip([("url", newUrl)], JsonText.Spaced, "");
      assert RecordContent(newUrl) + "" == RecordContent(newUrl);
      Patch(PatchRequest(GistApi + server.gistId.value, "token " + server.githubToken.value,
                         "application/vnd.github+json", RecordFile, RecordContent(newUrl)))
  }

  // ------------------------------------------------------------- output scan

  /** How many lines the loop handles: every read before the first empty one. */
  function LinesRead(lines: seq<string>): (n: nat)
    ensures n <= |lines|
    ensures forall k :: 0 <= k < n ==> lines[k] != ""
    ensures n < |lines| ==> lines[n] == ""
  {
    if lines == [] || lines[0] == "" then 0 else 1 + LinesRead(lines[1..])
  }

  /** Line `k` is the first line the loop handles that contains a tunnel URL. */
  ghost predicate FirstMatchingLine(lines: seq<string>, k: int) {
    && 0 <= k < LinesRead(lines)
    && TunnelUrl.Find(lines[k]).Some?
    && forall k' :: 0 <= k' < k ==> TunnelUrl.Find(lines[k']).None?
  }

  /** The loop's observable results: the lines it surfaced as log events and the URLs it published. */
  datatype ScanResult = ScanResult(logged: seq<string>, published: seq<string>)

  /**
   * The read loop of `start`, entered with `url_found == found`: every line
   * up to the first empty read is logged, and the URL of a matching line is
   * published only while `url_found` is still false.
   */
  function ScanLines(lines: seq<string>, found: bool): (r: ScanResult)
    ensures r.logged == lines[..LinesRead(lines)]
    ensures |r.published| <= 1
    ensures found ==> r.published == []
    decreases |lines|
  {
    if lines == [] || lines[0] == "" then ScanResult([], [])
    else
      var m := TunnelUrl.Find(lines[0]);
      var rest := ScanLines(lines[1..], found || m.Some?);
      assert lines[..LinesRead(lines)] == [lines[0]] + lines[1..][..LinesRead(lines[1..])];
      ScanResult([lines[0]] + rest.logged, (if m.Some? && !found then [m.value] else []) + rest.published)
  }

  /** Reading past the first line shifts line indices by one. */
  lemma FirstMatchingLineShift(lines: seq<string>, k: int)
    requires lines != [] && lines[0] != "" && TunnelUrl.Find(lines[0]).None?
    ensures FirstMatchingLine(lines[1..], k) ==> FirstMatchingLine(lines, k + 1)
    ensures (forall j :: 0 <= j < LinesRead(lines[1..]) ==> TunnelUrl.Find(lines[1..][j]).None?) ==>
            (forall j :: 0 <= j < LinesRead(lines) ==> TunnelUrl.Find(lines[j]).None?)
  {
    assert forall j :: 1 <= j < |lines| ==> lines[j] == lines[1..][j - 1];
  }

  /**
   * Started with `url_found` false, the scan publishes nothing exactly when
   * no handled line matches, and otherwise the URL of the first line that does.
   */
  lemma {:induction false} ScanPublishesFirstMatch(lines: seq<string>)
    ensures var r := ScanLines(lines, false);
            && (r.published == [] <==> forall k :: 0 <= k < LinesRead(lines) ==> TunnelUrl.Find(lines[k]).None?)
            && (r.published != [] ==>
                  exists k :: FirstMatchingLine(lines, k) && r.published == [TunnelUrl.Find(lines[k]).value])
    decreases |lines|
  {
    if lines != [] && lines[0] != "" {
      var m := TunnelUrl.Find(lines[0]);
      if m.Some? {
        assert FirstMatchingLine(lines, 0);
        assert ScanLines(lines, false).published == [m.value] + ScanLines(lines[1..], true).published;
      } else {
        ScanPublishesFirstMatch(lines[1..]);
        var rest := ScanLines(lines[1..], false);
        assert ScanLines(lines, false).published == rest.published;
        if rest.published != [] {
          var k :| FirstMatchingLine(lines[1..], k) && rest.published == [TunnelUrl.Find(lines[1..][k]).value];
          FirstMatchingLineShift(lines, k);
        } else {
          FirstMatchingLineShift(lines, 0);
        }
      }
    }
  }

  // ------------------------------------------------------------ start / stop

  /**
   * What spawning the tunnel binary gives: an error; the values `readline()`
   * returns; or the values it returns before one `readline()` raises (the
   * output is decoded as strict UTF-8, so undecodable output raises).
   */
  datatype Spawn = SpawnFailed(error: string) | Spawned(lines: seq<string>) | ReadFailed(lines: seq<string>, error: string)

  /**
   * The observable course of one `start` call; `spawnError` and `readError`
   * are the exceptions that leave `start` from `Popen` and from `readline()`.
   */
  datatype StartRun = StartRun(
    command: seq<string>,
    spawnError: Option<string>,
    readError: Option<string>,
    logged: seq<string>,
    discovery: seq<Discovery>,
    server: HybridServer)

  /** The tunnel command line: protocol `http2`, targeting the gateway's local port. */
  function TunnelCommand(binPath: string, port: int): (cmd: seq<string>)
    ensures |cmd| == 6 && cmd[0] == binPath && cmd[1..5] == ["tunnel", "--protocol", "http2", "--url"]
    ensures |cmd[5]| > |LocalOrigin| && cmd[5][..|LocalOrigin|] == LocalOrigin && Decimal.ParseInt(cmd[5][|LocalOrigin|..]) == Some(port)
  {
    Decimal.IntToStringRoundTrip(port);
    [binPath, "tunnel", "--protocol", "http2", "--url", LocalOrigin + Decimal.IntToString(port)]
  }

  /**
   * `start()` after the gateway thread is up: spawn the tunnel, scan its
   * output, and publish what the scan found. A failed spawn propagates its
   * error and leaves `tunnel_process` unset. A `readline()` that raises ends
   * the scan and propagates its error; only `KeyboardInterrupt` is caught, so
   * the spawned tunnel is left running.
   */
  function Start(server: HybridServer, binPath: string, spawn: Spawn): (run: StartRun)
    ensures run.command == TunnelCommand(binPath, server.port)
    ensures |run.discovery| <= 1
    ensures run.server.tunnelStarted <==> server.tunnelStarted || !spawn.SpawnFailed?
    ensures run.server == server.(tunnelStarted := run.server.tunnelStarted)
    ensures spawn.SpawnFailed? ==> && run.spawnError == Some(spawn.error) && run.readError.None?
                                   && run.discovery == [] && run.logged == []
    ensures !spawn.SpawnFailed? ==> run.spawnError.None? && run.logged == spawn.lines[..LinesRead(spawn.lines)]
    ensures spawn.Spawned? ==> run.readError.None?
    ensures spawn.ReadFailed? ==> && (run.readError.Some? <==> LinesRead(spawn.lines) == |spawn.lines|)
                                  && (run.readError.Some? ==> run.readError.value == spawn.error)
  {
    var command := TunnelCommand(binPath, server.port);
    match spawn
    case SpawnFailed(e) => StartRun(command, Some(e), None, [], [], server)
    case Spawned(lines) => Scanned(server, command, lines, None)
    case ReadFailed(lines, e) => Scanned(server, command, lines, if LinesRead(lines) == |lines| then Some(e) else None)
  }

  /** The run of a spawned tunnel whose output is `lines`, followed by `readError` if the loop reaches it. */
  function Scanned(server: HybridServer, command: seq<string>, lines: seq<string>, readError: Option<string>): StartRun {
    var scan := ScanLines(lines, false);
    var published := seq(|scan.published|, i requires 0 <= i < |scan.published| =>
                           UpdateServiceDiscovery(server, scan.published[i]));
    StartRun(command, None, readError, scan.logged, published, server.(tunnelStarted := true))
  }

  /**
   * A `readline()` that raises after the output `lines` does not undo what
   * the scan published before it, and leaves the tunnel to be terminated by `stop`.
   */
  lemma ReadErrorKeepsPublication(server: HybridServer, binPath: string, lines: seq<string>, error: string)
    ensures var failed := Start(server, binPath, ReadFailed(lines, error));
            && failed.discovery == Start(server, binPath, Spawned(lines)).discovery
            && Stop(failed.server) == Terminate
  {
  }

  /** Over any output, `start` publishes exactly the URL of the first matching line, and nothing if no line matches. */
  lemma StartPublishesFirstMatch(server: HybridServer, binPath: string, lines: seq<string>)
    ensures var run := Start(server, binPath, Spawned(lines));
            && (run.discovery == [] <==> forall k :: 0 <= k < LinesRead(lines) ==> TunnelUrl.Find(lines[k]).None?)
            && (run.discovery != [] ==>
                  exists k :: FirstMatchingLine(lines, k) &&
                              run.discovery == [UpdateServiceDiscovery(server, TunnelUrl.Find(lines[k]).value)])
  {
    var scan := ScanLines(lines, false);
    var run := Start(server, binPath, Spawned(lines));
    ScanPublishesFirstMatch(lines);
    assert |run.discovery| == |scan.published|;
    if scan.published != [] {
      var k :| FirstMatchingLine(lines, k) && scan.published == [TunnelUrl.Find(lines[k]).value];
      assert run.discovery == [UpdateServiceDiscovery(server, TunnelUrl.Find(lines[k]).value)];
    }
  }

  /** The ready line printed twice still leads to exactly one publication, of its URL. */
  lemma RepeatedReadyLinePublishedOnce(server: HybridServer, binPath: string)
    ensures var line := "https://abc-def.trycloudflare.com tunnel ready\n";
            Start(server, binPath, Spawned([line, line])).discovery ==
              [UpdateServiceDiscovery(server, "https://abc-def.trycloudflare.com")]
  {
    var line := "https://abc-def.trycloudflare.com tunnel ready\n";
    var lines := [line, line];
    TunnelUrl.ReadyLineExample();
    assert LinesRead(lines) == 2;
    StartPublishesFirstMatch(server, binPath, lines);
    assert FirstMatchingLine(lines, 0);
    forall k | 0 <= k < |lines| ensures TunnelUrl.Find(lines[k]) == Some("https://abc-def.trycloudflare.com") {
      assert lines[k] == line;
    }
  }

  /** What `stop()` does to the outside world. */
  datatype StopEffect = NoEffect | Terminate

  /** `stop()`: terminate the tunnel process if one was ever spawned; the supervisor itself is unchanged. */
  function Stop(server: HybridServer): (e: StopEffect)
    ensures e == Terminate <==> server.tunnelStarted
  {
    if server.tunnelStarted then Terminate else NoEffect
  }

  /** A supervisor that was constructed but never spawned a tunnel (or whose spawn failed) stops without effect. */
  lemma StopBeforeStartIsNoOp(gistId: Option<string>, githubToken: Option<string>, secretKey: Option<string>,
                              port: int, env: Env, binPath: string, error: string)
    requires New(gistId, githubToken, secretKey, port, env).Success?
    ensures var server := New(gistId, githubToken, secretKey, port, env).value.server;
            && Stop(server) == NoEffect
            && Stop(Start(server, binPath, SpawnFailed(error)).server) == NoEffect
  {
  }

  /** After a successful spawn, `stop` terminates the tunnel process. */
  lemma StopAfterStartTerminates(server: HybridServer, binPath: string, lines: seq<string>)
    ensures Stop(Start(server, binPath, Spawned(lines)).server) == Terminate
  {
  }
}
