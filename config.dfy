/** Configuration loading (internal/config/config.go): a YAML file first,
    environment variables as the fallback, and a validator for the required
    fields. The package-global `App` is the field of an AppState object.
    The library calls (os.ReadFile, os.Getenv, yaml.Unmarshal,
    time.ParseDuration, strconv.ParseInt) are inputs: the file contents or
    their absence, a map of the environment, and functions standing for the
    parsers and the decoder. */
module Config {
  import opened Wrappers

  /** time.Duration: a signed count of nanoseconds. */
  type Duration = int

  const Hour: Duration := 3_600_000_000_000

  /** The IMAPS port used when MAIL_PORT is unset or does not parse. */
  const DefaultPort: int := 993

  datatype MailConfig = MailConfig(
    host: string,
    port: int,
    username: string,
    password: string,
    checkInterval: Duration,
    allowedDomains: seq<string>)

  datatype DiscordConfig = DiscordConfig(webhookURL: string)

  datatype Config = Config(mail: MailConfig, discord: DiscordConfig)

  /** The zero value the global has before anything is loaded. */
  const ZeroConfig: Config := Config(MailConfig("", 0, "", "", 0, []), DiscordConfig(""))

  // ---------------------------------------------------------------------
  // validate
  // ---------------------------------------------------------------------

  datatype ConfigError = MissingHost | MissingUsername | MissingPassword | MissingWebhookURL

  /** The four required fields are checked in order and the first empty one
      is reported. */
  function Validate(c: Config): (r: Option<ConfigError>)
    ensures r.None? <==>
      c.mail.host != "" && c.mail.username != "" && c.mail.password != "" && c.discord.webhookURL != ""
    ensures r == Some(MissingHost) <==> c.mail.host == ""
    ensures r == Some(MissingUsername) <==> c.mail.host != "" && c.mail.username == ""
    ensures r == Some(MissingPassword) <==>
      c.mail.host != "" && c.mail.username != "" && c.mail.password == ""
    ensures r == Some(MissingWebhookURL) <==>
      c.mail.host != "" && c.mail.username != "" && c.mail.password != "" && c.discord.webhookURL == ""
  {
    if c.mail.host == "" then Some(MissingHost)
    else if c.mail.username == "" then Some(MissingUsername)
    else if c.mail.password == "" then Some(MissingPassword)
    else if c.discord.webhookURL == "" then Some(MissingWebhookURL)
    else None
  }

  /** Port, interval and allow-list play no part in validation. */
  lemma ValidateIgnoresOtherFields(c: Config, port: int, interval: Duration, domains: seq<string>)
    ensures Validate(c) == Validate(c.(mail := c.mail.(port := port, checkInterval := interval, allowedDomains := domains)))
  {
  }

  // ---------------------------------------------------------------------
  // Environment
  // ---------------------------------------------------------------------

  /** os.Getenv: an unset variable reads as the empty string. */
  type Environment = map<string, string>

  function Getenv(env: Environment, key: string): string {
    if key in env then env[key] else ""
  }

  /** parseEnvInt: the parsed value when the variable is set and parses in
      base 10, the default otherwise. */
  function ParseEnvInt(env: Environment, parseInt: string -> Option<int>, key: string, defaultValue: int): (r: int)
    ensures Getenv(env, key) == "" ==> r == defaultValue
    ensures parseInt(Getenv(env, key)).None? ==> r == defaultValue
    ensures Getenv(env, key) != "" && parseInt(Getenv(env, key)).Some? ==> r == parseInt(Getenv(env, key)).value
  {
    var value := Getenv(env, key);
    if value != "" then
      match parseInt(value)
      case Some(parsed) => parsed
      case None => defaultValue
    else
      defaultValue
  }

  /** The check interval loadFromEnv leaves behind, given the previous one
      and the value of MAIL_CHECK_INTERVAL: a value that parses replaces the
      previous interval, an empty or unparsable one leaves it alone, and
      zero, whichever way it arose, becomes one hour. */
  function EnvInterval(previous: Duration, raw: string, parseDuration: string -> Option<Duration>): (d: Duration)
    ensures d != 0
    ensures (raw == "" || parseDuration(raw).None?) && previous != 0 ==> d == previous
    ensures (raw == "" || parseDuration(raw).None?) && previous == 0 ==> d == Hour
    ensures raw != "" && parseDuration(raw) == Some(0) ==> d == Hour
    ensures raw != "" && parseDuration(raw).Some? && parseDuration(raw).value != 0 ==> d == parseDuration(raw).value
    ensures d == Hour || d == previous || (raw != "" && Some(d) == parseDuration(raw))
  {
    var afterParse :=
      if raw != "" && parseDuration(raw).Some? then parseDuration(raw).value else previous;
    if afterParse == 0 then Hour else afterParse
  }

  /** The state loadFromEnv leaves in the global, given the state before. */
  function ApplyEnv(c: Config, env: Environment, parseInt: string -> Option<int>,
                    parseDuration: string -> Option<Duration>): (r: Config)
    ensures r.mail.host == Getenv(env, "MAIL_HOST")
    ensures r.mail.port == ParseEnvInt(env, parseInt, "MAIL_PORT", DefaultPort)
    ensures r.mail.username == Getenv(env, "MAIL_USERNAME")
    ensures r.mail.password == Getenv(env, "MAIL_PASSWORD")
    ensures r.discord.webhookURL == Getenv(env, "DISCORD_WEBHOOK_URL")
    ensures r.mail.checkInterval == EnvInterval(c.mail.checkInterval, Getenv(env, "MAIL_CHECK_INTERVAL"), parseDuration)
    ensures r.mail.allowedDomains == c.mail.allowedDomains
  {
    Config(
      MailConfig(
        Getenv(env, "MAIL_HOST"),
        ParseEnvInt(env, parseInt, "MAIL_PORT", DefaultPort),
        Getenv(env, "MAIL_USERNAME"),
        Getenv(env, "MAIL_PASSWORD"),
        EnvInterval(c.mail.checkInterval, Getenv(env, "MAIL_CHECK_INTERVAL"), parseDuration),
        c.mail.allowedDomains),
      DiscordConfig(Getenv(env, "DISCORD_WEBHOOK_URL")))
  }

  // ---------------------------------------------------------------------
  // Loading
  // ---------------------------------------------------------------------

  datatype LoadError = ReadFailed | UnmarshalFailed | Invalid(reason: ConfigError)

  /** What yaml.Unmarshal leaves in the global and whether it succeeded;
      a failed decode may already have overwritten some fields. */
  datatype Decoded = Decoded(app: Config, ok: bool)

  /** The global after a loader has run, and the loader's error. */
  datatype Loaded = Loaded(app: Config, err: Option<LoadError>)

  function Checked(c: Config): Loaded {
    match Validate(c)
    case None => Loaded(c, None)
    case Some(e) => Loaded(c, Some(Invalid(e)))
  }

  /** loadFromYaml as a function of the state before it. */
  function YamlOutcome(c: Config, file: Option<seq<bv8>>, unmarshal: (seq<bv8>, Config) -> Decoded): Loaded {
    match file
    case None => Loaded(c, Some(ReadFailed))
    case Some(data) =>
      var decoded := unmarshal(data, c);
      if !decoded.ok then Loaded(decoded.app, Some(UnmarshalFailed)) else Checked(decoded.app)
  }

  /** loadFromEnv as a function of the state before it. */
  function EnvOutcome(c: Config, env: Environment, parseInt: string -> Option<int>,
                      parseDuration: string -> Option<Duration>): Loaded {
    Checked(ApplyEnv(c, env, parseInt, parseDuration))
  }

  /** Load as a function of the state before it. */
  function LoadOutcome(c: Config, file: Option<seq<bv8>>, unmarshal: (seq<bv8>, Config) -> Decoded,
                       env: Environment, parseInt: string -> Option<int>,
                       parseDuration: string -> Option<Duration>): Loaded {
    var fromYaml := YamlOutcome(c, file, unmarshal);
    if fromYaml.err.None? then fromYaml else EnvOutcome(fromYaml.app, env, parseInt, parseDuration)
  }

  // ---------------------------------------------------------------------
  // Properties of the loaders
  // ---------------------------------------------------------------------

  /** parseEnvInt's default reaches the port: 993 when MAIL_PORT is unset or
      does not parse. */
  lemma PortDefaultsTo993(c: Config, env: Environment, parseInt: string -> Option<int>,
                          parseDuration: string -> Option<Duration>)
    requires Getenv(env, "MAIL_PORT") == "" || parseInt(Getenv(env, "MAIL_PORT")).None?
    ensures ApplyEnv(c, env, parseInt, parseDuration).mail.port == 993
  {
  }

  /** loadFromEnv overwrites every field unconditionally except the interval
      (kept when the variable is missing or bad) and the allow-list (never
      touched): two states that agree on those two give the same result. */
  lemma ApplyEnvForgetsOtherFields(c1: Config, c2: Config, env: Environment, parseInt: string -> Option<int>,
                                   parseDuration: string -> Option<Duration>)
    requires c1.mail.checkInterval == c2.mail.checkInterval
    requires c1.mail.allowedDomains == c2.mail.allowedDomains
    ensures ApplyEnv(c1, env, parseInt, parseDuration) == ApplyEnv(c2, env, parseInt, parseDuration)
  {
  }

  /** Loading from the same environment twice is the same as loading once. */
  lemma ApplyEnvIdempotent(c: Config, env: Environment, parseInt: string -> Option<int>,
                           parseDuration: string -> Option<Duration>)
    ensures var once := ApplyEnv(c, env, parseInt, parseDuration);
            ApplyEnv(once, env, parseInt, parseDuration) == once
  {
    var once := ApplyEnv(c, env, parseInt, parseDuration);
    var raw := Getenv(env, "MAIL_CHECK_INTERVAL");
    assert EnvInterval(once.mail.checkInterval, raw, parseDuration) == once.mail.checkInterval;
  }

  /** A YAML file that reads, decodes and validates decides the result on its
      own: the environment is never consulted. */
  lemma YamlSuccessIgnoresEnv(c: Config, file: Option<seq<bv8>>, unmarshal: (seq<bv8>, Config) -> Decoded,
                              env1: Environment, parseInt1: string -> Option<int>,
                              parseDuration1: string -> Option<Duration>,
                              env2: Environment, parseInt2: string -> Option<int>,
                              parseDuration2: string -> Option<Duration>)
    requires YamlOutcome(c, file, unmarshal).err.None?
    ensures LoadOutcome(c, file, unmarshal, env1, parseInt1, parseDuration1) == YamlOutcome(c, file, unmarshal)
    ensures LoadOutcome(c, file, unmarshal, env1, parseInt1, parseDuration1)
         == LoadOutcome(c, file, unmarshal, env2, parseInt2, parseDuration2)
  {
  }

  /** Any failure of the YAML path (no file, a decode error, a missing
      required field) falls back to the environment, applied on top of the
      state the YAML path left behind. */
  lemma FallbackAppliesEnvOnYamlState(c: Config, file: Option<seq<bv8>>, unmarshal: (seq<bv8>, Config) -> Decoded,
                                      env: Environment, parseInt: string -> Option<int>,
                                      parseDuration: string -> Option<Duration>)
    requires YamlOutcome(c, file, unmarshal).err.Some?
    ensures LoadOutcome(c, file, unmarshal, env, parseInt, parseDuration)
         == EnvOutcome(YamlOutcome(c, file, unmarshal).app, env, parseInt, parseDuration)
    ensures file.None? ==> YamlOutcome(c, file, unmarshal).app == c
    ensures file.Some? ==> YamlOutcome(c, file, unmarshal).app == unmarshal(file.value, c).app
  {
  }

  /** What the YAML decode wrote survives the fallback: the allow-list
      always, the interval when MAIL_CHECK_INTERVAL is unset and the decoded
      interval is not zero. */
  lemma YamlFieldsSurviveFallback(c: Config, data: seq<bv8>, unmarshal: (seq<bv8>, Config) -> Decoded,
                                  env: Environment, parseInt: string -> Option<int>,
                                  parseDuration: string -> Option<Duration>)
    requires YamlOutcome(c, Some(data), unmarshal).err.Some?
    ensures var decoded := unmarshal(data, c).app;
            var r := LoadOutcome(c, Some(data), unmarshal, env, parseInt, parseDuration).app;
            && r.mail.allowedDomains == decoded.mail.allowedDomains
            && (Getenv(env, "MAIL_CHECK_INTERVAL") == "" && decoded.mail.checkInterval != 0
                ==> r.mail.checkInterval == decoded.mail.checkInterval)
  {
    FallbackAppliesEnvOnYamlState(c, Some(data), unmarshal, env, parseInt, parseDuration);
  }

  /** Load succeeds exactly when the configuration it leaves passes
      validation, and the only error it can report is a validation error:
      read and decode errors of the YAML path are never surfaced. */
  lemma LoadSucceedsIffValid(c: Config, file: Option<seq<bv8>>, unmarshal: (seq<bv8>, Config) -> Decoded,
                             env: Environment, parseInt: string -> Option<int>,
                             parseDuration: string -> Option<Duration>)
    ensures var r := LoadOutcome(c, file, unmarshal, env, parseInt, parseDuration);
            && (r.err.None? <==> Validate(r.app).None?)
            && (r.err.Some? ==> r.err == Some(Invalid(Validate(r.app).value)))
  {
  }

  /** When the YAML path fails, a successful Load always has a non-zero
      interval. */
  lemma EnvFallbackIntervalNonZero(c: Config, file: Option<seq<bv8>>, unmarshal: (seq<bv8>, Config) -> Decoded,
                                   env: Environment, parseInt: string -> Option<int>,
                                   parseDuration: string -> Option<Duration>)
    requires YamlOutcome(c, file, unmarshal).err.Some?
    ensures LoadOutcome(c, file, unmarshal, env, parseInt, parseDuration).app.mail.checkInterval != 0
  {
  }

  /** The YAML path has no such default: a valid file without an interval
      (zero) loads successfully and keeps the zero interval. */
  lemma YamlZeroIntervalAccepted(c: Config, data: seq<bv8>, cfg: Config, env: Environment,
                                 parseInt: string -> Option<int>, parseDuration: string -> Option<Duration>)
    requires Validate(cfg).None? && cfg.mail.checkInterval == 0
    ensures var r := LoadOutcome(c, Some(data), (d: seq<bv8>, prev: Config) => Decoded(cfg, true),
                                 env, parseInt, parseDuration);
            r.err.None? && r.app.mail.checkInterval == 0
  {
  }

  /** Without a YAML file the allow-list keeps its zero value: no
      environment variable supplies it. */
  lemma EnvOnlyAllowListEmpty(unmarshal: (seq<bv8>, Config) -> Decoded, env: Environment,
                              parseInt: string -> Option<int>, parseDuration: string -> Option<Duration>)
    ensures LoadOutcome(ZeroConfig, None, unmarshal, env, parseInt, parseDuration).app.mail.allowedDomains == []
  {
  }

  /** The process-wide configuration `App` and the loaders that fill it in. */
  class AppState {
    var app: Config

    constructor ()
      ensures app == ZeroConfig
    {
      app := ZeroConfig;
    }

    method LoadFromEnv(env: Environment, parseInt: string -> Option<int>,
                       parseDuration: string -> Option<Duration>) returns (err: Option<LoadError>)
      modifies this
      ensures Loaded(app, err) == EnvOutcome(old(app), env, parseInt, parseDuration)
    {
      app := app.(mail := app.mail.(host := Getenv(env, "MAIL_HOST")));
      app := app.(mail := app.mail.(port := ParseEnvInt(env, parseInt, "MAIL_PORT", DefaultPort)));
      app := app.(mail := app.mail.(username := Getenv(env, "MAIL_USERNAME")));
      app := app.(mail := app.mail.(password := Getenv(env, "MAIL_PASSWORD")));

      var interval := Getenv(env, "MAIL_CHECK_INTERVAL");
      if interval != "" {
        var duration := parseDuration(interval);
        if duration.Some? {
          app := app.(mail := app.mail.(checkInterval := duration.value));
        }
      }

      if app.mail.checkInterval == 0 {
        app := app.(mail := app.mail.(checkInterval := 1 * Hour));
      }

      app := app.(discord := app.discord.(webhookURL := Getenv(env, "DISCORD_WEBHOOK_URL")));

      err := Checked(app).err;
    }

    method LoadFromYaml(file: Option<seq<bv8>>, unmarshal: (seq<bv8>, Config) -> Decoded)
      returns (err: Option<LoadError>)
      modifies this
      ensures Loaded(app, err) == YamlOutcome(old(app), file, unmarshal)
    {
      if file.None? {
        return Some(ReadFailed);
      }

      var decoded := unmarshal(file.value, app);
      app := decoded.app;
      if !decoded.ok {
        return Some(UnmarshalFailed);
      }

      err := Checked(app).err;
    }

    method Load(file: Option<seq<bv8>>, unmarshal: (seq<bv8>, Config) -> Decoded,
                env: Environment, parseInt: string -> Option<int>,
                parseDuration: string -> Option<Duration>) returns (err: Option<LoadError>)
      modifies this
      ensures Loaded(app, err) == LoadOutcome(old(app), file, unmarshal, env, parseInt, parseDuration)
    {
      var yamlErr := LoadFromYaml(file, unmarshal);
      if yamlErr.None? {
        return None;
      }

      err := LoadFromEnv(env, parseInt, parseDuration);
    }
  }
}
