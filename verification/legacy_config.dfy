/**
 * Configuration of the legacy bot: no database, no timeline switch and the
 * `/ohshift` command. Reading the environment and the credential checks are
 * those of the live bot.
 */
module LegacyConfig {
  import opened Wrappers
  import Strings
  import Live = Config

  datatype Config = Config(
    slackBotToken: string,
    slackSigningSecret: string,
    slackAppToken: string,
    slashCommand: string,
    notificationsChannel: string,
    port: string,
    logLevel: Live.LogLevel)

  /** `Load`. */
  function Load(env: Live.Env): (r: Config)
    ensures r.slackBotToken == Live.Lookup(env, "SLACK_BOT_TOKEN")
    ensures r.slackSigningSecret == Live.Lookup(env, "SLACK_SIGNING_SECRET")
    ensures r.slackAppToken == Live.Lookup(env, "SLACK_APP_TOKEN")
    ensures r.slashCommand != "" && r.notificationsChannel != "" && r.port != ""
  {
    Config(
      Live.GetEnv(env, "SLACK_BOT_TOKEN", ""),
      Live.GetEnv(env, "SLACK_SIGNING_SECRET", ""),
      Live.GetEnv(env, "SLACK_APP_TOKEN", ""),
      Live.GetEnv(env, "SLASH_COMMAND", "/ohshift"),
      Live.GetEnv(env, "NOTIFICATIONS_CHANNEL", "general"),
      Live.GetEnv(env, "PORT", "8080"),
      Live.ParseLogLevel(Live.GetEnv(env, "LOG_LEVEL", "info")))
  }

  /** The configuration of an empty environment. */
  lemma LoadDefaults()
    ensures Load(map[]) == Config("", "", "", "/ohshift", "general", "8080", Live.Info)
  {
    assert Strings.ToLower("info") == "info";
  }

  /** `Config.Validate`. */
  function Validate(c: Config): (r: Option<Live.ConfigError>)
    ensures r == None <==> c.slackBotToken != "" && c.slackSigningSecret != "" && c.slackAppToken != ""
    ensures r.Some? ==> r.value in {Live.BotTokenError, Live.SigningSecretError, Live.AppTokenError}
  {
    Live.CheckTokens(c.slackBotToken, c.slackSigningSecret, c.slackAppToken)
  }

  /** Both bots read the same environment alike, except for the default
      command name, and accept or reject it for the same reason. */
  lemma AgreesWithLive(env: Live.Env)
    ensures var legacy := Load(env);
            var live := Live.Load(env);
            && legacy.slackBotToken == live.slackBotToken
            && legacy.slackSigningSecret == live.slackSigningSecret
            && legacy.slackAppToken == live.slackAppToken
            && legacy.notificationsChannel == live.notificationsChannel
            && legacy.port == live.port
            && legacy.logLevel == live.logLevel
            && Validate(legacy) == Live.Validate(live)
    ensures Live.Lookup(env, "SLASH_COMMAND") != "" ==> Load(env).slashCommand == Live.Load(env).slashCommand
  {
  }
}
