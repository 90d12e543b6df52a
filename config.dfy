/**
 * The CLI's user configuration: its defaults, drawn partly from the
 * environment, and the checks a loaded configuration must pass. The
 * environment is a parameter, `env(name)` standing for `os.Getenv(name)`
 * (the empty string when the variable is unset).
 */
module Config {
  import opened Wrappers

  datatype UserConfig = UserConfig(
    apiEndpoint: string,
    mcpServerEndpoint: string,
    defaultAiTool: string,
    logLevel: string,
    lastUpdateCheck: int,
    updateCheckEnabled: bool,
    telemetryEnabled: bool,
    configVersion: string,
    basicAuthUsername: string,
    basicAuthPassword: string)

  const ProductionEndpoint := "https://momorph.ai"
  const StagingEndpoint := "https://stg.momorph.com"
  const DefaultMcpEndpoint := "https://momorph.ai/mcp"
  const DefaultLogLevel := "info"
  const ConfigVersion := "1.0"

  /** The zero `time.Time`: an update check that never happened. */
  const NeverChecked := 0

  /** The text of `os.ErrInvalid`, the only error Validate reports. */
  const ErrInvalid := "invalid argument"

  const ValidTools := {"copilot", "cursor", "claude"}
  const ValidLevels := {"debug", "info", "warn", "error"}

  /** The environment names a staging deployment. */
  predicate StagingEnv(env: string -> string) {
    env("MOMORPH_ENV") == "staging" || env("MOMORPH_ENV") == "stg"
  }

  /** The endpoint DefaultConfig chooses: MOMORPH_API_ENDPOINT when set, else by MOMORPH_ENV. */
  function DefaultEndpoint(env: string -> string): (endpoint: string)
    ensures env("MOMORPH_API_ENDPOINT") != "" ==> endpoint == env("MOMORPH_API_ENDPOINT")
    ensures env("MOMORPH_API_ENDPOINT") == "" && StagingEnv(env) ==> endpoint == StagingEndpoint
    ensures env("MOMORPH_API_ENDPOINT") == "" && !StagingEnv(env) ==> endpoint == ProductionEndpoint
    ensures endpoint != ""
  {
    var endpoint := if StagingEnv(env) then StagingEndpoint else ProductionEndpoint;
    var override := env("MOMORPH_API_ENDPOINT");
    if override != "" then override else endpoint
  }

  /** DefaultConfig: the fixed defaults, with the endpoint and Basic Auth read from the environment. */
  function DefaultConfig(env: string -> string): (c: UserConfig)
    ensures c.apiEndpoint == DefaultEndpoint(env)
    ensures c.mcpServerEndpoint == DefaultMcpEndpoint
    ensures c.defaultAiTool == "" && c.logLevel == DefaultLogLevel
    ensures c.lastUpdateCheck == NeverChecked
    ensures c.updateCheckEnabled && !c.telemetryEnabled
    ensures c.configVersion == ConfigVersion
    ensures c.basicAuthUsername == env("MOMORPH_BASIC_AUTH_USERNAME")
    ensures c.basicAuthPassword == env("MOMORPH_BASIC_AUTH_PASSWORD")
  {
    UserConfig(
      apiEndpoint := DefaultEndpoint(env),
      mcpServerEndpoint := DefaultMcpEndpoint,
      defaultAiTool := "",
      logLevel := DefaultLogLevel,
      lastUpdateCheck := NeverChecked,
      updateCheckEnabled := true,
      telemetryEnabled := false,
      configVersion := ConfigVersion,
      basicAuthUsername := env("MOMORPH_BASIC_AUTH_USERNAME"),
      basicAuthPassword := env("MOMORPH_BASIC_AUTH_PASSWORD"))
  }

  /**
   * Validate: the endpoint must be set, a chosen AI tool must be one the CLI
   * knows, and the log level must be one of the four levels.
   */
  function Validate(c: UserConfig): (r: Option<string>)
    ensures r.None? <==>
              c.apiEndpoint != ""
              && (c.defaultAiTool == "" || c.defaultAiTool in ValidTools)
              && c.logLevel in ValidLevels
    ensures r.Some? ==> r.value == ErrInvalid
  {
    if c.apiEndpoint == "" then Some(ErrInvalid)
    else if c.defaultAiTool != "" && c.defaultAiTool !in ValidTools then Some(ErrInvalid)
    else if c.logLevel !in ValidLevels then Some(ErrInvalid)
    else None
  }

  /** HasBasicAuth: both credentials are present. */
  predicate HasBasicAuth(c: UserConfig) {
    c.basicAuthUsername != "" && c.basicAuthPassword != ""
  }

  /** IsStaging: a staging environment, or Basic Auth credentials, which only staging uses. */
  function IsStaging(c: UserConfig, env: string -> string): (r: bool)
    ensures r <==> StagingEnv(env) || HasBasicAuth(c)
    ensures !HasBasicAuth(c) ==> (r <==> StagingEnv(env))
  {
    var e := env("MOMORPH_ENV");
    e == "staging" || e == "stg" || HasBasicAuth(c)
  }

  // ---------------------------------------------------------------- properties

  /** The defaults pass validation in every environment. */
  lemma DefaultConfigIsValid(env: string -> string)
    ensures Validate(DefaultConfig(env)).None?
  {
    var c := DefaultConfig(env);
    assert c.apiEndpoint != "";
    assert c.logLevel in ValidLevels;
  }

  /** Choosing any known tool or level keeps a valid configuration valid; an unknown level never is. */
  lemma ValidateDependsOnlyOnTheChecks(c: UserConfig, tool: string, level: string)
    requires Validate(c).None?
    ensures tool in ValidTools && level in ValidLevels ==>
              Validate(c.(defaultAiTool := tool, logLevel := level)).None?
    ensures level !in ValidLevels ==> Validate(c.(logLevel := level)) == Some(ErrInvalid)
    ensures Validate(c.(apiEndpoint := "")) == Some(ErrInvalid)
  {
  }

  /** The defaults in a staging environment are staging, and outside it only Basic Auth makes them so. */
  lemma DefaultConfigStaging(env: string -> string)
    ensures StagingEnv(env) ==> IsStaging(DefaultConfig(env), env)
    ensures !StagingEnv(env) ==>
              (IsStaging(DefaultConfig(env), env) <==>
                 env("MOMORPH_BASIC_AUTH_USERNAME") != "" && env("MOMORPH_BASIC_AUTH_PASSWORD") != "")
    ensures StagingEnv(env) && env("MOMORPH_API_ENDPOINT") == "" ==>
              DefaultConfig(env).apiEndpoint == StagingEndpoint
  {
  }
}
