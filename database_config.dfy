/** The database options chosen from configuration: SQLite when explicitly enabled,
    PostgreSQL otherwise, with defaults for every setting. */
module DatabaseConfig {
  import opened Strings

  /** The port as configuration hands it over: the default number, or the configured text
      (configuration values are not converted). */
  datatype DbPort = PortNumber(n: int) | PortText(s: string)

  datatype DbOptions =
    | SqliteOptions(database: string, synchronize: bool, logging: bool)
    | PostgresOptions(
        host: string,
        port: DbPort,
        username: string,
        password: string,
        database: string,
        synchronize: bool,
        logging: bool,
        migrationsRun: bool,
        retryAttempts: int,
        retryDelay: int,
        poolMax: int,
        connectionTimeoutMillis: int,
        idleTimeoutMillis: int)

  /** `configService.get(key, default)`: the configured value, the default only when the key
      is not configured at all (an empty value is kept). */
  function Setting(env: map<string, string>, key: string, default: string): (v: string)
    ensures key in env ==> v == env[key]
    ensures key !in env ==> v == default
  {
    if key in env then env[key] else default
  }

  predicate UseSqlite(env: map<string, string>) {
    ToLower(Setting(env, "USE_SQLITE", "false")) == "true"
  }

  function NodeEnv(env: map<string, string>): string {
    Setting(env, "NODE_ENV", "development")
  }

  /** `getDatabaseConfig`; `sqlitePath` is the SQLite file next to the compiled sources. */
  function GetDatabaseConfig(env: map<string, string>, sqlitePath: string): (o: DbOptions)
    ensures o.SqliteOptions? <==> UseSqlite(env)
    ensures o.SqliteOptions? ==> o.database == sqlitePath && o.synchronize
    ensures o.PostgresOptions? ==> (o.synchronize <==> NodeEnv(env) != "production")
    ensures o.logging <==> NodeEnv(env) == "development"
    ensures o.PostgresOptions? ==>
      && o.host == Setting(env, "DB_HOST", "localhost")
      && o.port == (if "DB_PORT" in env then PortText(env["DB_PORT"]) else PortNumber(5432))
      && o.username == Setting(env, "DB_USERNAME", "postgres")
      && o.password == Setting(env, "DB_PASSWORD", "postgres")
      && o.database == Setting(env, "DB_NAME", "movie_app")
    ensures o.PostgresOptions? ==> !o.migrationsRun && o.retryAttempts == 5 && o.retryDelay == 5000
    ensures o.PostgresOptions? ==> o.poolMax == 10 && o.connectionTimeoutMillis == 10000 && o.idleTimeoutMillis == 30000
  {
    var nodeEnv := NodeEnv(env);
    if UseSqlite(env) then
      SqliteOptions(sqlitePath, true, nodeEnv == "development")
    else
      var port := if "DB_PORT" in env then PortText(env["DB_PORT"]) else PortNumber(5432);
      PostgresOptions(
        Setting(env, "DB_HOST", "localhost"), port,
        Setting(env, "DB_USERNAME", "postgres"), Setting(env, "DB_PASSWORD", "postgres"),
        Setting(env, "DB_NAME", "movie_app"),
        nodeEnv != "production", nodeEnv == "development",
        false, 5, 5000, 10, 10000, 30000)
  }

  /** With nothing configured: PostgreSQL on localhost:5432 as postgres/postgres, database
      movie_app, in development (synchronizing and logging). */
  lemma EmptyConfigurationDefaults(sqlitePath: string)
    ensures GetDatabaseConfig(map[], sqlitePath)
         == PostgresOptions("localhost", PortNumber(5432), "postgres", "postgres", "movie_app",
                            true, true, false, 5, 5000, 10, 10000, 30000)
  {
    assert ToLower("false") == "false";
  }

  /** `USE_SQLITE` is read without regard to case. */
  lemma {:induction false} SqliteSwitchIgnoresCase(env: map<string, string>, value: string)
    ensures UseSqlite(env["USE_SQLITE" := value]) == UseSqlite(env["USE_SQLITE" := ToLower(value)])
  {
    ToLowerIdempotent(value);
  }
}
