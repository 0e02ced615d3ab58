/**
  The start-up check of the configuration read from `.syncmailenv`: the
  fetcher only starts when the check interval, the log file and the
  accounts directory are all given with a non-empty value; otherwise it
  reports the problem and exits with status 1. Reading the file is not
  modelled: its parsed contents are the input.
*/
module Config {
  import opened Wrappers

  const INTERVAL_KEY := "NEOMUTT_CHECK_INTERVAL"
  const LOG_FILE_KEY := "NEOMUTT_LOG_FILE"
  const ACCOUNTS_PATH_KEY := "NEOMUTT_ACCOUNTS_PATH"
  const REQUIRED_KEYS: seq<string> := [INTERVAL_KEY, LOG_FILE_KEY, ACCOUNTS_PATH_KEY]

  const MISSING_KEYS_MESSAGE :=
    "Missing environment variables NEOMUTT_LOG_FILE, NEOMUTT_ACCOUNTS_PATH, or NEOMUTT_CHECK_INTERVAL. "
    + "Are you executing the program from the directory that contains your configuration options file?"
  const EXIT_FAILURE := 1

  /** A parsed dotenv file: a key written without `=` has no value. */
  type DotEnv = map<string, Option<string>>

  /** config.get(key): no value for an absent key. */
  function Get(env: DotEnv, key: string): Option<string> {
    if key in env then env[key] else None
  }

  /** A value that is true in a boolean context: present and not the empty string. */
  predicate Truthy(value: Option<string>) {
    value.Some? && value.value != ""
  }

  /** The settings the fetcher runs with; the interval is still text here. */
  datatype CycleConfig = CycleConfig(checkInterval: string, logFile: string, accountsPath: string)

  /** Either the fetcher proceeds with its settings, or it exits with a status and a message. */
  datatype Startup = Proceed(config: CycleConfig) | Exit(status: int, message: string)

  /** The check at start-up. */
  function Validate(env: DotEnv): (s: Startup)
    ensures s.Exit? <==> exists key :: key in REQUIRED_KEYS && !Truthy(Get(env, key))
    ensures s.Exit? ==> s.status == EXIT_FAILURE && s.message == MISSING_KEYS_MESSAGE
    ensures s.Proceed? ==>
              && Get(env, INTERVAL_KEY) == Some(s.config.checkInterval) && s.config.checkInterval != ""
              && Get(env, LOG_FILE_KEY) == Some(s.config.logFile) && s.config.logFile != ""
              && Get(env, ACCOUNTS_PATH_KEY) == Some(s.config.accountsPath) && s.config.accountsPath != ""
  {
    if !Truthy(Get(env, INTERVAL_KEY)) || !Truthy(Get(env, LOG_FILE_KEY)) || !Truthy(Get(env, ACCOUNTS_PATH_KEY)) then
      Exit(EXIT_FAILURE, MISSING_KEYS_MESSAGE)
    else
      Proceed(CycleConfig(Get(env, INTERVAL_KEY).value, Get(env, LOG_FILE_KEY).value, Get(env, ACCOUNTS_PATH_KEY).value))
  }

  /** Only the three required keys decide the outcome; any other entry is ignored. */
  lemma OnlyRequiredKeysMatter(env1: DotEnv, env2: DotEnv)
    requires forall key :: key in REQUIRED_KEYS ==> Get(env1, key) == Get(env2, key)
    ensures Validate(env1) == Validate(env2)
  {
  }

  /** A key written without a value is as good as a missing one. */
  lemma KeyWithoutValueRejected(env: DotEnv, key: string)
    requires key in REQUIRED_KEYS
    ensures Validate(env[key := None]) == Exit(EXIT_FAILURE, MISSING_KEYS_MESSAGE)
  {
  }

  /** The interval is not checked to be a number: any non-empty text passes. */
  lemma IntervalNotCheckedNumeric()
    ensures Validate(map[INTERVAL_KEY := Some("soon"), LOG_FILE_KEY := Some("mail.log"), ACCOUNTS_PATH_KEY := Some("accounts")])
            == Proceed(CycleConfig("soon", "mail.log", "accounts"))
  {
  }
}
