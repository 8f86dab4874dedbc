/** Startup configuration (src/config.rs): `Config::new` merges the
    command-line record with the process environment. */
module StartupConfig {
  import W = Wrappers
  import opened IntParse
  import opened Errors

  /** The `Config` record, both as the command line gives it and as `Config::new` returns it. */
  datatype Config = Config(
    logLevel: string,
    databaseHost: string,
    databasePort: u16,
    databaseName: string,
    databaseUser: string,
    databasePassword: string,
    port: u16)

  /** Which required environment variable was unset when the process panicked. */
  datatype PanicReason = BadWordsApiKeyUnset | PasetoKeyUnset | PostgresPasswordUnset

  /** The three ways `Config::new` can end: a panic, an `Err`, or an `Ok`. */
  datatype Startup = Panic(reason: PanicReason) | Err(error: Error) | Ok(config: Config)

  const DEFAULT_PORT: u16 := 3030

  /** `Config::new`, with `env` for the process environment and `cli` for
      what `Config::parse()` produced from the command line. */
  function New(env: map<string, string>, cli: Config): (r: Startup)
    // the two API keys are checked first, in this order
    ensures "BAD_WORDS_API_KEY" !in env ==> r == Panic(BadWordsApiKeyUnset)
    ensures "BAD_WORDS_API_KEY" in env && "PASETO_KEY" !in env ==> r == Panic(PasetoKeyUnset)
    // an invalid PORT is reported before the database password is looked at
    ensures ("BAD_WORDS_API_KEY" in env && "PASETO_KEY" in env
             && "PORT" in env && !Accepts(env["PORT"], U16_MAX)) ==>
      r == Err(ParseError(ParseU16(env["PORT"]).error))
    ensures r.Ok? ==>
      && r.config.port as int == (if "PORT" in env then Magnitude(env["PORT"]) else DEFAULT_PORT as int)
      && r.config.logLevel == cli.logLevel
      && r.config.databaseUser == (if "POSTGRES_USER" in env then env["POSTGRES_USER"] else cli.databaseUser)
      && r.config.databaseHost == (if "POSTGRES_HOST" in env then env["POSTGRES_HOST"] else cli.databaseHost)
      && r.config.databaseName == (if "POSTGRES_DB" in env then env["POSTGRES_DB"] else cli.databaseName)
      && "POSTGRES_PASSWORD" in env && r.config.databasePassword == env["POSTGRES_PASSWORD"]
  {
    if "BAD_WORDS_API_KEY" !in env then Panic(BadWordsApiKeyUnset)
    else if "PASETO_KEY" !in env then Panic(PasetoKeyUnset)
    else
      var port := if "PORT" in env then ParseU16(env["PORT"]) else W.Ok(DEFAULT_PORT);
      if port.Err? then Err(ParseError(port.error))
      else
        // each `env::var(key).unwrap_or(...)`: the variable when set, else the command-line value
        var dbUser := if "POSTGRES_USER" in env then env["POSTGRES_USER"] else cli.databaseUser;
        var dbHost := if "POSTGRES_HOST" in env then env["POSTGRES_HOST"] else cli.databaseHost;
        var dbPort := if "POSTGRES_PORT" in env then env["POSTGRES_PORT"] else ToDecimal(cli.databasePort as nat);
        var dbName := if "POSTGRES_DB" in env then env["POSTGRES_DB"] else cli.databaseName;
        if "POSTGRES_PASSWORD" !in env then Panic(PostgresPasswordUnset)
        else
          var dbPassword := env["POSTGRES_PASSWORD"];
          var databasePort := ParseU16(dbPort);
          if databasePort.Err? then Err(ParseError(databasePort.error))
          else Ok(Config(cli.logLevel, dbHost, databasePort.value, dbName, dbUser, dbPassword, port.value))
  }

  /** Both API keys set, and PORT either unset or a valid u16. */
  predicate PortStepPasses(env: map<string, string>) {
    && "BAD_WORDS_API_KEY" in env && "PASETO_KEY" in env
    && ("PORT" in env ==> Accepts(env["PORT"], U16_MAX))
  }

  /** The outcome after the PORT step: the password panic comes before the
      database port is parsed, and the database port comes from POSTGRES_PORT
      or, unset, from the command line's value unchanged. */
  lemma NewAfterPort(env: map<string, string>, cli: Config)
    requires PortStepPasses(env)
    ensures "POSTGRES_PASSWORD" !in env <==> New(env, cli) == Panic(PostgresPasswordUnset)
    ensures "POSTGRES_PASSWORD" in env && "POSTGRES_PORT" in env && !Accepts(env["POSTGRES_PORT"], U16_MAX) ==>
      New(env, cli) == Err(ParseError(ParseU16(env["POSTGRES_PORT"]).error))
    ensures "POSTGRES_PASSWORD" in env && "POSTGRES_PORT" !in env ==>
      New(env, cli).Ok? && New(env, cli).config.databasePort == cli.databasePort
    ensures "POSTGRES_PASSWORD" in env && "POSTGRES_PORT" in env && Accepts(env["POSTGRES_PORT"], U16_MAX) ==>
      New(env, cli).Ok? && New(env, cli).config.databasePort as int == Magnitude(env["POSTGRES_PORT"])
  {
    ParseU16ToDecimal(cli.databasePort);
  }

  /** `Config::new` succeeds exactly when every required variable is set and
      every port text present is a valid u16. */
  lemma NewSucceedsIff(env: map<string, string>, cli: Config)
    ensures New(env, cli).Ok? <==>
      && PortStepPasses(env)
      && "POSTGRES_PASSWORD" in env
      && ("POSTGRES_PORT" in env ==> Accepts(env["POSTGRES_PORT"], U16_MAX))
  {
    if PortStepPasses(env) {
      NewAfterPort(env, cli);
    }
  }

  /** The command line's `port` and `database_password` never affect the outcome. */
  lemma NewIgnoresCliPortAndPassword(env: map<string, string>, cli: Config, port: u16, password: string)
    ensures New(env, cli) == New(env, cli.(port := port, databasePassword := password))
  {
  }
}
