/**
 * Configuration of the live bot, read from the process environment. The
 * environment is an input: a map from variable name to value, where a
 * missing name and an empty value read alike, as `os.Getenv` makes them.
 */
module Config {
  import opened Wrappers
  import opened Strings

  type Env = map<string, string>

  /** The four `slog` levels the bot can be configured with. */
  datatype LogLevel = Debug | Info | Warn | Error

  datatype Config = Config(
    dbURI: string,
    slackBotToken: string,
    slackSigningSecret: string,
    slackAppToken: string,
    slashCommand: string,
    notificationsChannel: string,
    port: string,
    logLevel: LogLevel,
    addAllMessagesToTimeline: bool)

  /** A configuration error names the variable that is missing. */
  datatype ConfigError = ConfigError(field: string, message: string)

  /** `Error.Error`: only the message is shown. */
  function ErrorText(e: ConfigError): (r: string)
    ensures r == e.message
  {
    e.message
  }

  /** The value `os.Getenv` reports: empty when the variable is unset. */
  function Lookup(env: Env, key: string): string {
    if key in env then env[key] else ""
  }

  /** `getEnv`: the variable's value when it is set and non-empty, the
      default otherwise. */
  function GetEnv(env: Env, key: string, default: string): (r: string)
    ensures key in env && env[key] != "" ==> r == env[key]
    ensures key !in env || env[key] == "" ==> r == default
  {
    var value := Lookup(env, key);
    if value != "" then value else default
  }

  /** Setting a variable to the empty string is the same as unsetting it. */
  lemma EmptyIsUnset(env: Env, key: string, other: string, default: string)
    ensures GetEnv(env[key := ""], other, default) == GetEnv(env - {key}, other, default)
  {
  }

  /** `getEnvBool`: "true" and "false" in any letter case; any other value,
      and no value, give the default. */
  function GetEnvBool(env: Env, key: string, default: bool): (r: bool)
    ensures key in env && ToLower(env[key]) == "true" ==> r
    ensures key in env && ToLower(env[key]) == "false" ==> !r
    ensures r != default ==> key in env && ToLower(env[key]) == (if r then "true" else "false")
  {
    var value := Lookup(env, key);
    if value != "" then
      if ToLower(value) == "true" then true
      else if ToLower(value) == "false" then false
      else default
    else default
  }

  /** Upper-casing a value never changes how it is read as a boolean. */
  lemma GetEnvBoolIgnoresCase(env: Env, key: string, default: bool)
    requires key in env
    ensures GetEnvBool(env[key := ToUpper(env[key])], key, default) == GetEnvBool(env, key, default)
  {
    LowerOfUpper(env[key]);
  }

  /** Lower-casing forgets an earlier upper-casing. */
  lemma LowerOfUpper(s: string)
    ensures ToLower(ToUpper(s)) == ToLower(s)
  {
  }

  /** `parseLogLevel`: the four level names in any letter case; anything
      else reads as info. */
  function ParseLogLevel(level: string): (r: LogLevel)
    ensures r == Debug <==> ToLower(level) == "debug"
    ensures r == Warn <==> ToLower(level) == "warn"
    ensures r == Error <==> ToLower(level) == "error"
  {
    var l := ToLower(level);
    if l == "debug" then Debug
    else if l == "info" then Info
    else if l == "warn" then Warn
    else if l == "error" then Error
    else Info
  }

  /** The lower-case name of each level. */
  function LevelName(l: LogLevel): string {
    match l
    case Debug => "debug"
    case Info => "info"
    case Warn => "warn"
    case Error => "error"
  }

  /** Every level is reached by its own name, in either letter case. */
  lemma ParseLevelName(l: LogLevel)
    ensures ParseLogLevel(LevelName(l)) == l
    ensures ParseLogLevel(ToUpper(LevelName(l))) == l
  {
    LowerOfUpper(LevelName(l));
    var n := LevelName(l);
    assert ToLower(n) == n;
  }

  /** `Load`. */
  function Load(env: Env): (r: Config)
    ensures r.dbURI == Lookup(env, "DB_URI")
    ensures r.slackBotToken == Lookup(env, "SLACK_BOT_TOKEN")
    ensures r.slackSigningSecret == Lookup(env, "SLACK_SIGNING_SECRET")
    ensures r.slackAppToken == Lookup(env, "SLACK_APP_TOKEN")
    ensures r.slashCommand != "" && r.notificationsChannel != "" && r.port != ""
  {
    Config(
      GetEnv(env, "DB_URI", ""),
      GetEnv(env, "SLACK_BOT_TOKEN", ""),
      GetEnv(env, "SLACK_SIGNING_SECRET", ""),
      GetEnv(env, "SLACK_APP_TOKEN", ""),
      GetEnv(env, "SLASH_COMMAND", "/shift"),
      GetEnv(env, "NOTIFICATIONS_CHANNEL", "general"),
      GetEnv(env, "PORT", "8080"),
      ParseLogLevel(GetEnv(env, "LOG_LEVEL", "info")),
      GetEnvBool(env, "ADD_ALL_MESSAGES_TO_TIMELINE", false))
  }

  /** The configuration of an empty environment. */
  lemma LoadDefaults()
    ensures Load(map[]) == Config("", "", "", "", "/shift", "general", "8080", Info, false)
  {
    assert ToLower("info") == "info";
  }

  /** A set variable overrides each default. */
  lemma LoadOverrides(env: Env)
    ensures "SLASH_COMMAND" in env && env["SLASH_COMMAND"] != "" ==> Load(env).slashCommand == env["SLASH_COMMAND"]
    ensures "NOTIFICATIONS_CHANNEL" in env && env["NOTIFICATIONS_CHANNEL"] != "" ==> Load(env).notificationsChannel == env["NOTIFICATIONS_CHANNEL"]
    ensures "PORT" in env && env["PORT"] != "" ==> Load(env).port == env["PORT"]
  {
  }

  /** The log level and the timeline switch are parsed from their variables. */
  lemma LoadParses(env: Env)
    ensures "LOG_LEVEL" in env ==> Load(env).logLevel == (if env["LOG_LEVEL"] == "" then Info else ParseLogLevel(env["LOG_LEVEL"]))
    ensures Load(env).addAllMessagesToTimeline <==> "ADD_ALL_MESSAGES_TO_TIMELINE" in env && ToLower(env["ADD_ALL_MESSAGES_TO_TIMELINE"]) == "true"
  {
    assert ToLower("info") == "info";
  }

  const BotTokenError := ConfigError("SLACK_BOT_TOKEN", "Slack bot token is required")
  const SigningSecretError := ConfigError("SLACK_SIGNING_SECRET", "Slack signing secret is required")
  const AppTokenError := ConfigError("SLACK_APP_TOKEN", "Slack app token is required for Socket Mode")

  /** The three checks of `Validate`, in order; the first missing credential
      is the one reported. */
  function CheckTokens(botToken: string, signingSecret: string, appToken: string): (r: Option<ConfigError>)
    ensures r == None <==> botToken != "" && signingSecret != "" && appToken != ""
    ensures botToken == "" ==> r == Some(BotTokenError)
    ensures botToken != "" && signingSecret == "" ==> r == Some(SigningSecretError)
    ensures botToken != "" && signingSecret != "" && appToken == "" ==> r == Some(AppTokenError)
  {
    if botToken == "" then Some(BotTokenError)
    else if signingSecret == "" then Some(SigningSecretError)
    else if appToken == "" then Some(AppTokenError)
    else None
  }

  /** `Config.Validate`: the three Slack credentials are required; the
      database URI and the other settings are not checked. */
  function Validate(c: Config): (r: Option<ConfigError>)
    ensures r == None <==> c.slackBotToken != "" && c.slackSigningSecret != "" && c.slackAppToken != ""
    ensures r.Some? ==> r.value in {BotTokenError, SigningSecretError, AppTokenError}
  {
    CheckTokens(c.slackBotToken, c.slackSigningSecret, c.slackAppToken)
  }

  /** A loaded configuration is valid exactly when the environment sets all
      three credentials, whatever else it holds. */
  lemma LoadThenValidate(env: Env)
    ensures Validate(Load(env)) == None <==>
              Lookup(env, "SLACK_BOT_TOKEN") != "" && Lookup(env, "SLACK_SIGNING_SECRET") != ""
              && Lookup(env, "SLACK_APP_TOKEN") != ""
  {
  }

  /** The text of a failed validation is the message for the first missing
      credential, and its field names that credential's variable. */
  lemma ValidateMessages(c: Config)
    ensures c.slackBotToken == "" ==>
              Validate(c).Some? && ErrorText(Validate(c).value) == "Slack bot token is required"
              && Validate(c).value.field == "SLACK_BOT_TOKEN"
    ensures c.slackBotToken != "" && c.slackSigningSecret == "" ==>
              Validate(c).Some? && ErrorText(Validate(c).value) == "Slack signing secret is required"
              && Validate(c).value.field == "SLACK_SIGNING_SECRET"
    ensures c.slackBotToken != "" && c.slackSigningSecret != "" && c.slackAppToken == "" ==>
              Validate(c).Some? && ErrorText(Validate(c).value) == "Slack app token is required for Socket Mode"
              && Validate(c).value.field == "SLACK_APP_TOKEN"
  {
  }

  /** The variable a loaded configuration is reported to miss is indeed
      unset or empty in the environment. */
  lemma ReportedFieldIsUnset(env: Env)
    ensures Validate(Load(env)).Some? ==> Lookup(env, Validate(Load(env)).value.field) == ""
  {
  }

  /** An unconfigured bot is first told about its bot token. */
  lemma EmptyEnvReportsBotToken()
    ensures Validate(Load(map[])) == Some(BotTokenError)
    ensures ErrorText(BotTokenError) == "Slack bot token is required"
  {
  }
}
