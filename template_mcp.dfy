/**
 * The MCP server entries the AI tools' config files get for MoMorph: the Claude
 * updater edits a project's `.mcp.json` in place; the Cursor and Windsurf
 * updaters rewrite the `momorph` server of a global config; Copilot needs no
 * change. The file system is seen through its answers: the config file's
 * state, the home directory, and the errors of creating the directory and of
 * writing the file.
 */
module TemplateMcp {
  import opened Wrappers
  import opened JsonValues

  /** What reading a config file gives: missing, unreadable, or its text decoded as JSON (or the decode error). */
  datatype ConfigFile = Missing | Unreadable(error: string) | Present(decoded: Result<Json>)

  /** What an updater does: leave the file alone, write the new config, fail, or (as written) panic. */
  datatype UpdateOutcome = Unchanged | Written(config: map<string, Json>) | Failed(error: string) | Panicked(reason: string)

  const TokenHeader := "x-github-token"

  /** `after` agrees with `before` on every key but `k`, and has the same keys apart from `k`. */
  predicate SameExcept(before: map<string, Json>, after: map<string, Json>, k: string) {
    && before.Keys - {k} == after.Keys - {k}
    && forall j :: j in before && j != k ==> j in after && after[j] == before[j]
  }

  // ------------------------------------------------------------ Claude

  /**
   * The Claude edit, from `before` to `after`: inside `mcpServers.momorph`, the
   * `url` becomes the endpoint and `headers` (created when missing or null)
   * gets the token; every other key at every level is kept.
   */
  ghost predicate ClaudeUpdated(before: map<string, Json>, after: map<string, Json>, token: string, endpoint: string) {
    && ObjectAt(before, "mcpServers").Some?
    && ObjectAt(before, "mcpServers").value.Keys >= {"momorph"}
    && ObjectAt(after, "mcpServers").Some?
    && after.Keys == before.Keys && SameExcept(before, after, "mcpServers")
    && var servers := ObjectAt(before, "mcpServers").value;
       var servers' := ObjectAt(after, "mcpServers").value;
       && ObjectAt(servers, "momorph").Some? && ObjectAt(servers', "momorph").Some?
       && servers'.Keys == servers.Keys && SameExcept(servers, servers', "momorph")
       && var server := ObjectAt(servers, "momorph").value;
          var server' := ObjectAt(servers', "momorph").value;
          && server'.Keys == server.Keys + {"headers", "url"}
          && server'["url"] == JString(endpoint)
          && (forall j :: j in server && j != "headers" && j != "url" ==> server'[j] == server[j])
          && ObjectAt(server', "headers").Some?
          && var headers := if ObjectAt(server, "headers").Some? then ObjectAt(server, "headers").value else map[];
             var headers' := ObjectAt(server', "headers").value;
             && headers'.Keys == headers.Keys + {TokenHeader}
             && headers'[TokenHeader] == JString(token)
             && SameExcept(headers, headers', TokenHeader)
  }

  /** The Claude edit of a config is unique. */
  lemma ClaudeUpdateIsUnique(before: map<string, Json>, a1: map<string, Json>, a2: map<string, Json>,
                             token: string, endpoint: string)
    requires ClaudeUpdated(before, a1, token, endpoint) && ClaudeUpdated(before, a2, token, endpoint)
    ensures a1 == a2
  {
    var servers := ObjectAt(before, "mcpServers").value;
    var server := ObjectAt(servers, "momorph").value;
    var s1, s2 := ObjectAt(a1, "mcpServers").value, ObjectAt(a2, "mcpServers").value;
    var m1, m2 := ObjectAt(s1, "momorph").value, ObjectAt(s2, "momorph").value;
    var h1, h2 := ObjectAt(m1, "headers").value, ObjectAt(m2, "headers").value;
    assert h1 == h2;
    assert m1 == m2;
    assert s1 == s2;
  }

  /** A config the Claude edit produced is left as it is by a second edit with the same token and endpoint. */
  lemma ClaudeUpdateIsStable(before: map<string, Json>, after: map<string, Json>, token: string, endpoint: string)
    requires ClaudeUpdated(before, after, token, endpoint)
    ensures ClaudeUpdated(after, after, token, endpoint)
  {
  }

  /**
   * What the Claude updater does with `.mcp.json`: a missing file, or one
   * without `mcpServers` or without its `momorph` entry, is left alone; a
   * value of the wrong kind is an error; otherwise the edited config is
   * written back.
   */
  ghost predicate ClaudeOutcome(file: ConfigFile, token: string, endpoint: string, writeError: Option<string>,
                                o: UpdateOutcome) {
    && (file.Missing? ==> o == Unchanged)
    && (file.Unreadable? ==> o == Failed("failed to read .mcp.json: " + file.error))
    && (file.Present? && DecodeObject(file.decoded).Err? ==>
          o == Failed("failed to parse .mcp.json: " + DecodeObject(file.decoded).error))
    && (file.Present? && DecodeObject(file.decoded).Ok? ==>
          var config := DecodeObject(file.decoded).value;
          if config.None? || "mcpServers" !in config.value then o == Unchanged
          else if !config.value["mcpServers"].JObject? then o == Failed("mcpServers is not a valid object")
          else
            var servers := config.value["mcpServers"].fields;
            if "momorph" !in servers then o == Unchanged
            else if !servers["momorph"].JObject? then o == Failed("momorph server is not a valid object")
            else
              var server := servers["momorph"].fields;
              if "headers" in server && server["headers"] != JNull && !server["headers"].JObject? then
                o == Failed("momorph headers is not a valid object")
              else if writeError.Some? then o == Failed("failed to write .mcp.json: " + writeError.value)
              else o.Written? && ClaudeUpdated(config.value, o.config, token, endpoint))
  }

  /** The Claude updater, with the outcome ClaudeOutcome describes. */
  method ConfigureClaude(file: ConfigFile, token: string, endpoint: string, writeError: Option<string>)
    returns (o: UpdateOutcome)
    ensures ClaudeOutcome(file, token, endpoint, writeError, o)
  {
    if file.Missing? {
      return Unchanged;
    }
    if file.Unreadable? {
      return Failed("failed to read .mcp.json: " + file.error);
    }
    var decoded := DecodeObject(file.decoded);
    if decoded.Err? {
      return Failed("failed to parse .mcp.json: " + decoded.error);
    }
    // Lookups in a nil map find nothing.
    if decoded.value.None? || "mcpServers" !in decoded.value.value {
      return Unchanged;
    }
    var mcpConfig := decoded.value.value;
    var serversValue := mcpConfig["mcpServers"];
    if !serversValue.JObject? {
      return Failed("mcpServers is not a valid object");
    }
    var servers := serversValue.fields;
    if "momorph" !in servers {
      return Unchanged;
    }
    var momorphValue := servers["momorph"];
    if !momorphValue.JObject? {
      return Failed("momorph server is not a valid object");
    }
    var momorphServer := momorphValue.fields;
    var headers: map<string, Json>;
    if "headers" !in momorphServer || momorphServer["headers"] == JNull {
      headers := map[];
    } else {
      var headersValue := momorphServer["headers"];
      if !headersValue.JObject? {
        return Failed("momorph headers is not a valid object");
      }
      headers := headersValue.fields;
    }
    headers := headers[TokenHeader := JString(token)];
    // The Go maps are shared with the config they came from; here each edited level is stored back.
    momorphServer := momorphServer["headers" := JObject(headers)]["url" := JString(endpoint)];
    servers := servers["momorph" := JObject(momorphServer)];
    mcpConfig := mcpConfig["mcpServers" := JObject(servers)];
    if writeError.Some? {
      return Failed("failed to write .mcp.json: " + writeError.value);
    }
    o := Written(mcpConfig);
  }

  // ------------------------------------------------------------ Cursor and Windsurf

  /** The two tools whose global config gets a fresh `momorph` server. */
  datatype GlobalTool = Cursor | Windsurf

  /** The key of the server's endpoint: Windsurf uses "serverUrl". */
  function UrlKey(tool: GlobalTool): string {
    match tool
    case Cursor => "url"
    case Windsurf => "serverUrl"
  }

  function MkdirMessage(tool: GlobalTool): string {
    match tool
    case Cursor => "failed to create .cursor directory: "
    case Windsurf => "failed to create windsurf config directory: "
  }

  function WriteMessage(tool: GlobalTool): string {
    match tool
    case Cursor => "failed to write Cursor mcp.json: "
    case Windsurf => "failed to write Windsurf mcp_config.json: "
  }

  /** The `momorph` server entry the tool gets. */
  function MomorphServer(tool: GlobalTool, token: string, endpoint: string): Json {
    JObject(map[UrlKey(tool) := JString(endpoint), "headers" := JObject(map[TokenHeader := JString(token)])])
  }

  /**
   * The config a global updater starts from, as Go holds it: the decoded
   * object, a nil map (None) when the file holds `null`, and an empty object
   * when the file is missing, unreadable or not an object.
   */
  function LoadedConfig(file: ConfigFile): (r: Option<map<string, Json>>)
    ensures r.None? <==> file == Present(Ok(JNull))
  {
    if file.Present? && DecodeObject(file.decoded).Ok? then DecodeObject(file.decoded).value
    else Some(map[])
  }

  /** The global edit: `mcpServers` (replaced by an empty object when missing or not an object) gets the tool's server. */
  ghost predicate GlobalUpdated(tool: GlobalTool, before: map<string, Json>, after: map<string, Json>,
                                token: string, endpoint: string) {
    && ObjectAt(after, "mcpServers").Some?
    && after.Keys == before.Keys + {"mcpServers"}
    && SameExcept(before, after, "mcpServers")
    && var servers := if ObjectAt(before, "mcpServers").Some? then ObjectAt(before, "mcpServers").value else map[];
       var servers' := ObjectAt(after, "mcpServers").value;
       && servers'.Keys == servers.Keys + {"momorph"}
       && servers'["momorph"] == MomorphServer(tool, token, endpoint)
       && SameExcept(servers, servers', "momorph")
  }

  /** A config the global edit produced is left as it is by a second edit. */
  lemma GlobalUpdateIsStable(tool: GlobalTool, before: map<string, Json>, after: map<string, Json>,
                             token: string, endpoint: string)
    requires GlobalUpdated(tool, before, after, token, endpoint)
    ensures GlobalUpdated(tool, after, after, token, endpoint)
  {
  }

  /** The global edit of a config is unique. */
  lemma GlobalUpdateIsUnique(tool: GlobalTool, before: map<string, Json>, a1: map<string, Json>, a2: map<string, Json>,
                             token: string, endpoint: string)
    requires GlobalUpdated(tool, before, a1, token, endpoint) && GlobalUpdated(tool, before, a2, token, endpoint)
    ensures a1 == a2
  {
    assert ObjectAt(a1, "mcpServers").value == ObjectAt(a2, "mcpServers").value;
  }

  /** The edit a global updater makes on a loaded, non-nil config. */
  method SetMomorphServer(tool: GlobalTool, mcpConfig: map<string, Json>, token: string, endpoint: string)
    returns (updated: map<string, Json>)
    ensures GlobalUpdated(tool, mcpConfig, updated, token, endpoint)
  {
    var servers: map<string, Json> := map[];
    var serversPresent := false;
    if "mcpServers" in mcpConfig && mcpConfig["mcpServers"].JObject? {
      servers := mcpConfig["mcpServers"].fields;
      serversPresent := true;
    }
    updated := mcpConfig;
    if !serversPresent {
      updated := updated["mcpServers" := JObject(map[])];
    }
    servers := servers["momorph" := MomorphServer(tool, token, endpoint)];
    // The Go map `servers` is the one inside the config; here it is stored back.
    updated := updated["mcpServers" := JObject(servers)];
  }

  /**
   * The Cursor and Windsurf updaters as written: a config file holding `null`
   * decodes to a nil map, and the first store into it panics.
   */
  method ConfigureGlobalAsWritten(tool: GlobalTool, home: Result<string>, mkdirError: Option<string>,
                                  file: ConfigFile, token: string, endpoint: string, writeError: Option<string>)
    returns (o: UpdateOutcome)
    ensures home.Err? ==> o == Failed("failed to get home directory: " + home.error)
    ensures home.Ok? && mkdirError.Some? ==> o == Failed(MkdirMessage(tool) + mkdirError.value)
    ensures home.Ok? && mkdirError.None? ==>
              (o.Panicked? <==> file == Present(Ok(JNull)))
    ensures home.Ok? && mkdirError.None? && file != Present(Ok(JNull)) ==>
              if writeError.Some? then o == Failed(WriteMessage(tool) + writeError.value)
              else o.Written? && GlobalUpdated(tool, LoadedConfig(file).value, o.config, token, endpoint)
  {
    if home.Err? {
      return Failed("failed to get home directory: " + home.error);
    }
    if mkdirError.Some? {
      return Failed(MkdirMessage(tool) + mkdirError.value);
    }
    var loaded := LoadedConfig(file);
    if loaded.None? {
      // `mcpConfig["mcpServers"] = servers` on a nil map.
      return Panicked("assignment to entry in nil map");
    }
    var updated := SetMomorphServer(tool, loaded.value, token, endpoint);
    if writeError.Some? {
      return Failed(WriteMessage(tool) + writeError.value);
    }
    o := Written(updated);
  }

  /**
   * What the corrected Cursor and Windsurf updaters do: the home directory
   * and directory errors, then the write error, and otherwise the global edit
   * of the loaded config, a `null` one read as empty.
   */
  ghost predicate GlobalOutcome(tool: GlobalTool, home: Result<string>, mkdirError: Option<string>,
                                file: ConfigFile, token: string, endpoint: string, writeError: Option<string>,
                                o: UpdateOutcome) {
    && (home.Err? ==> o == Failed("failed to get home directory: " + home.error))
    && (home.Ok? && mkdirError.Some? ==> o == Failed(MkdirMessage(tool) + mkdirError.value))
    && (home.Ok? && mkdirError.None? ==>
          if writeError.Some? then o == Failed(WriteMessage(tool) + writeError.value)
          else
            var start := if LoadedConfig(file).Some? then LoadedConfig(file).value else map[];
            o.Written? && GlobalUpdated(tool, start, o.config, token, endpoint))
  }

  /** The Cursor and Windsurf updaters with a `null` config treated like an empty one: they never panic. */
  method ConfigureGlobal(tool: GlobalTool, home: Result<string>, mkdirError: Option<string>,
                         file: ConfigFile, token: string, endpoint: string, writeError: Option<string>)
    returns (o: UpdateOutcome)
    ensures !o.Panicked? && !o.Unchanged?
    ensures GlobalOutcome(tool, home, mkdirError, file, token, endpoint, writeError, o)
  {
    if home.Err? {
      return Failed("failed to get home directory: " + home.error);
    }
    if mkdirError.Some? {
      return Failed(MkdirMessage(tool) + mkdirError.value);
    }
    var loaded := LoadedConfig(file);
    var mcpConfig := if loaded.Some? then loaded.value else map[];
    var updated := SetMomorphServer(tool, mcpConfig, token, endpoint);
    if writeError.Some? {
      return Failed(WriteMessage(tool) + writeError.value);
    }
    o := Written(updated);
  }

  /** The file that makes the updaters as written panic: one holding `null`, which decodes without error. */
  lemma NullConfigDecodesToNilMap()
    ensures DecodeObject(Ok(JNull)) == Ok(None)
    ensures LoadedConfig(Present(Ok(JNull))).None?
  {
  }

  // ------------------------------------------------------------ choosing the updater

  datatype ConfigUpdater = ClaudeUpdater | CopilotUpdater | GlobalUpdater(tool: GlobalTool)

  /** GetConfigUpdater: an updater for the four known tools, None for any other. */
  function GetConfigUpdater(aiTool: string): (r: Option<ConfigUpdater>)
    ensures r.Some? <==> aiTool in {"claude", "copilot", "cursor", "windsurf"}
    ensures r == Some(ClaudeUpdater) <==> aiTool == "claude"
    ensures r == Some(CopilotUpdater) <==> aiTool == "copilot"
    ensures r == Some(GlobalUpdater(Cursor)) <==> aiTool == "cursor"
    ensures r == Some(GlobalUpdater(Windsurf)) <==> aiTool == "windsurf"
  {
    match aiTool
    case "claude" => Some(ClaudeUpdater)
    case "copilot" => Some(CopilotUpdater)
    case "cursor" => Some(GlobalUpdater(Cursor))
    case "windsurf" => Some(GlobalUpdater(Windsurf))
    case _ => None
  }

  /**
   * What the updaters see: the project's `.mcp.json`, the home directory, the
   * directory creation error, the tool's global config file, and the write error.
   */
  datatype McpEnvironment = McpEnvironment(
    projectFile: ConfigFile, home: Result<string>, mkdirError: Option<string>,
    globalFile: ConfigFile, writeError: Option<string>)

  /**
   * UpdateAIToolConfig: delegate to the tool's updater; an unknown tool is an
   * error. Cursor and Windsurf go to the corrected global updater, so a
   * `null` global config is edited as an empty one instead of panicking.
   */
  method UpdateAIToolConfig(aiTool: string, token: string, endpoint: string, env: McpEnvironment)
    returns (o: UpdateOutcome)
    ensures GetConfigUpdater(aiTool).None? ==> o == Failed("no config updater available for AI tool: " + aiTool)
    ensures aiTool == "claude" ==> ClaudeOutcome(env.projectFile, token, endpoint, env.writeError, o)
    ensures aiTool == "copilot" ==> o == Unchanged
    ensures aiTool == "cursor" ==>
              GlobalOutcome(Cursor, env.home, env.mkdirError, env.globalFile, token, endpoint, env.writeError, o)
    ensures aiTool == "windsurf" ==>
              GlobalOutcome(Windsurf, env.home, env.mkdirError, env.globalFile, token, endpoint, env.writeError, o)
    ensures !o.Panicked?
  {
    var updater := GetConfigUpdater(aiTool);
    if updater.None? {
      return Failed("no config updater available for AI tool: " + aiTool);
    }
    match updater.value
    case ClaudeUpdater =>
      o := ConfigureClaude(env.projectFile, token, endpoint, env.writeError);
    case CopilotUpdater =>
      o := Unchanged;
    case GlobalUpdater(tool) =>
      o := ConfigureGlobal(tool, env.home, env.mkdirError, env.globalFile, token, endpoint, env.writeError);
  }
}
