/** The configuration of config.py: the sections `BotConfig.validate` reads, the
    serialisation `to_dict` with the encryption password taken out, and the lazily
    loaded global of `get_config`. Most fields read their environment variable once, when
    the class is defined; `allowed_users` is read again, and the directories created,
    at every construction, so each load's construction is an input of its own. */
module Config {
  import opened Wrappers
  import Text

  /** A value of a section's `__dict__`. */
  datatype Value =
    | Str(s: string)
    | Int(i: int)
    | Bool(b: bool)
    | NoValue
    | Ints(xs: seq<int>)
    | Strs(ss: seq<string>)

  datatype TelegramConfig = TelegramConfig(token: string, webhookUrl: Option<string>, useWebhook: bool,
                                           webhookPort: int, webhookListen: string)

  datatype SecurityConfig = SecurityConfig(encryptionPassword: string, allowedUsers: Option<seq<int>>,
                                           webhookSecret: Option<string>, rateLimitEnabled: bool,
                                           maxRequestsPerHour: int)

  datatype MediaConfig = MediaConfig(maxFileSize: int, maxVideoDuration: int, maxReelDuration: int,
                                     allowedPhotoFormats: seq<string>, allowedVideoFormats: seq<string>,
                                     tempDir: string)

  datatype SchedulerConfig = SchedulerConfig(interval: int, maxConcurrentJobs: int, retryDelay: int,
                                             maxRetries: int, timezone: string)

  datatype LoggingConfig = LoggingConfig(level: string, format: string, logDir: string,
                                         maxFileSize: int, backupCount: int)

  /** `BotConfig`. The five sections `validate` does not read keep only their
      `__dict__`. */
  datatype BotConfig = BotConfig(
    telegram: TelegramConfig,
    database: map<string, Value>,
    security: SecurityConfig,
    instagram: map<string, Value>,
    media: MediaConfig,
    scheduler: SchedulerConfig,
    logging: LoggingConfig,
    notifications: map<string, Value>,
    redis: map<string, Value>,
    monitoring: map<string, Value>,
    debug: bool,
    environment: string,
    version: string)

  /** The placeholder the encryption password defaults to. */
  const PlaceholderPassword: string := "default_password_change_me"

  const LogLevels: seq<string> := ["DEBUG", "INFO", "WARNING", "ERROR", "CRITICAL"]

  /** The seven checks of `validate`, in the order it makes them. */
  datatype ConfigError =
    | MissingToken
    | WeakEncryptionPassword
    | NonPositiveFileSize
    | NonPositiveVideoDuration
    | NonPositiveInterval
    | NegativeRetries
    | UnknownLogLevel

  /** The text `validate` appends for each error. */
  function ErrorText(e: ConfigError): string
  {
    match e
    case MissingToken => "TELEGRAM_TOKEN is required"
    case WeakEncryptionPassword => "ENCRYPTION_PASSWORD must be set to a secure value"
    case NonPositiveFileSize => "MAX_FILE_SIZE must be positive"
    case NonPositiveVideoDuration => "MAX_VIDEO_DURATION must be positive"
    case NonPositiveInterval => "SCHEDULER_INTERVAL must be positive"
    case NegativeRetries => "MAX_RETRIES must be non-negative"
    case UnknownLogLevel => "LOG_LEVEL must be one of: DEBUG, INFO, WARNING, ERROR, CRITICAL"
  }

  /** Position of each check in `validate`. */
  function Rank(e: ConfigError): nat
  {
    match e
    case MissingToken => 0
    case WeakEncryptionPassword => 1
    case NonPositiveFileSize => 2
    case NonPositiveVideoDuration => 3
    case NonPositiveInterval => 4
    case NegativeRetries => 5
    case UnknownLogLevel => 6
  }

  /** `level.upper() in valid_log_levels`. */
  predicate IsValidLogLevel(level: string)
  {
    Text.Upper(level) in LogLevels
  }

  /** When each error applies, stated field by field. */
  predicate Violates(c: BotConfig, e: ConfigError)
  {
    match e
    case MissingToken => c.telegram.token == ""
    case WeakEncryptionPassword =>
      c.security.encryptionPassword == "" || c.security.encryptionPassword == PlaceholderPassword
    case NonPositiveFileSize => c.media.maxFileSize <= 0
    case NonPositiveVideoDuration => c.media.maxVideoDuration <= 0
    case NonPositiveInterval => c.scheduler.interval <= 0
    case NegativeRetries => c.scheduler.maxRetries < 0
    case UnknownLogLevel => !IsValidLogLevel(c.logging.level)
  }

  /** The seven errors, one per rank. */
  lemma RankCases(e: ConfigError)
    ensures e == [MissingToken, WeakEncryptionPassword, NonPositiveFileSize, NonPositiveVideoDuration,
                  NonPositiveInterval, NegativeRetries, UnknownLogLevel][Rank(e)]
  {
  }

  /** The checks of `validate` as written: each condition paired with its error, in
      order. */
  function Checks(c: BotConfig): (checks: seq<(bool, ConfigError)>)
    ensures |checks| == 7
    ensures forall i :: 0 <= i < |checks| ==> Rank(checks[i].1) == i
    ensures forall e :: checks[Rank(e)] == (Violates(c, e), e)
  {
    var checks :=
    [ (c.telegram.token == "", MissingToken),
      (c.security.encryptionPassword == "" || c.security.encryptionPassword == PlaceholderPassword,
       WeakEncryptionPassword),
      (c.media.maxFileSize <= 0, NonPositiveFileSize),
      (c.media.maxVideoDuration <= 0, NonPositiveVideoDuration),
      (c.scheduler.interval <= 0, NonPositiveInterval),
      (c.scheduler.maxRetries < 0, NegativeRetries),
      (!IsValidLogLevel(c.logging.level), UnknownLogLevel) ];
    forall e ensures checks[Rank(e)] == (Violates(c, e), e) {
      RankCases(e);
    }
    checks
  }

  /** The errors of the checks that fire, in check order. */
  function Collect(checks: seq<(bool, ConfigError)>): (errs: seq<ConfigError>)
    ensures forall e :: e in errs <==> exists i :: 0 <= i < |checks| && checks[i] == (true, e)
    ensures errs == [] <==> forall i :: 0 <= i < |checks| ==> !checks[i].0
  {
    if checks == [] then []
    else
      var rest := Collect(checks[1..]);
      assert forall i :: 0 < i < |checks| ==> checks[i] == checks[1..][i - 1];
      if checks[0].0 then [checks[0].1] + rest else rest
  }

  /** Checks listed in rank order give their errors in rank order. */
  lemma {:induction false} CollectOrdered(checks: seq<(bool, ConfigError)>)
    requires forall i, j :: 0 <= i < j < |checks| ==> Rank(checks[i].1) < Rank(checks[j].1)
    ensures forall i, j :: 0 <= i < j < |Collect(checks)| ==> Rank(Collect(checks)[i]) < Rank(Collect(checks)[j])
  {
    if checks != [] {
      var tail := checks[1..];
      CollectOrdered(tail);
      var rest := Collect(tail);
      forall k | 0 <= k < |rest| ensures Rank(checks[0].1) < Rank(rest[k]) {
        assert rest[k] in rest;
        var i :| 0 <= i < |tail| && tail[i] == (true, rest[k]);
        assert checks[i + 1] == tail[i];
      }
    }
  }

  /** The `errors` list `validate` collects: exactly the errors that apply, each once,
      in the order of the checks. */
  function Errors(c: BotConfig): (errs: seq<ConfigError>)
    ensures forall e :: e in errs <==> Violates(c, e)
    ensures forall i, j :: 0 <= i < j < |errs| ==> Rank(errs[i]) < Rank(errs[j])
  {
    var checks := Checks(c);
    var errs := Collect(checks);
    CollectOrdered(checks);
    assert forall e :: e in errs <==> Violates(c, e) by {
      forall e ensures e in errs <==> Violates(c, e) {
        assert checks[Rank(e)] == (Violates(c, e), e);
      }
    }
    errs
  }

  /** The lines of the ValueError's message after its heading. */
  function ErrorLines(errs: seq<ConfigError>): (lines: seq<string>)
    ensures |lines| == |errs|
    ensures forall i :: 0 <= i < |errs| ==> lines[i] == "- " + ErrorText(errs[i])
  {
    seq(|errs|, i requires 0 <= i < |errs| => "- " + ErrorText(errs[i]))
  }

  /** `validate`: the configuration itself when no check fails, else the ValueError's
      message. */
  function Validate(c: BotConfig): (r: Result<BotConfig, string>)
    ensures r.Ok? <==> forall e :: !Violates(c, e)
    ensures r.Ok? ==> r.value == c
    ensures r.Err? ==> r.error == "Configuration errors:\n" + Text.JoinLines(ErrorLines(Errors(c)))
  {
    var errs := Errors(c);
    if errs == [] then Ok(c)
    else
      assert Violates(c, errs[0]);
      Err("Configuration errors:\n" + Text.JoinLines(ErrorLines(errs)))
  }

  /** The message names every error that applies, each on a line of its own. */
  lemma {:induction false} MessageListsEveryError(c: BotConfig, e: ConfigError)
    requires Violates(c, e)
    ensures Validate(c).Err?
    ensures exists at: nat :: Text.OccursAt("- " + ErrorText(e), Validate(c).error, at)
  {
    var errs := Errors(c);
    var k :| 0 <= k < |errs| && errs[k] == e;
    var lines := ErrorLines(errs);
    Text.JoinLinesContains(lines, k);
    var at: nat :| Text.OccursAt(lines[k], Text.JoinLines(lines), at);
    OccursAfter("Configuration errors:\n", Text.JoinLines(lines), lines[k], at);
  }

  lemma OccursAfter(head: string, body: string, needle: string, at: nat)
    requires Text.OccursAt(needle, body, at)
    ensures Text.OccursAt(needle, head + body, |head| + at)
  {
    assert (head + body)[|head| + at..|head| + at + |needle|] == body[at..at + |needle|];
  }

  /** `max_retries == 0` is a valid setting; only negative counts are refused. */
  lemma ZeroRetriesAllowed(c: BotConfig)
    requires c.scheduler.maxRetries == 0
    ensures NegativeRetries !in Errors(c)
  {
  }

  /** The level is compared after upper-casing, so lower-case names pass. */
  lemma LowerCaseLevelsAccepted()
    ensures IsValidLogLevel("info") && IsValidLogLevel("debug") && IsValidLogLevel("Warning")
    ensures !IsValidLogLevel("TRACE") && !IsValidLogLevel("")
  {
    assert Text.Upper("info") == "INFO";
    assert Text.Upper("debug") == "DEBUG";
    assert Text.Upper("Warning") == "WARNING";
    assert Text.Upper("TRACE") == "TRACE";
  }

  /** The defaults of the five sections `validate` reads, with the token and the
      encryption password as the environment gave them. */
  function Defaults(token: string, encryptionPassword: string, others: map<string, Value>): BotConfig
  {
    BotConfig(
      TelegramConfig(token, None, false, 8443, "0.0.0.0"),
      others,
      SecurityConfig(encryptionPassword, Some([]), None, true, 200),
      others,
      MediaConfig(52428800, 60, 90, ["jpg", "jpeg", "png", "webp"], ["mp4", "mov", "avi", "mkv"], "tmp"),
      SchedulerConfig(10, 5, 60, 3, "UTC"),
      LoggingConfig("INFO", "%(asctime)s - %(name)s - %(levelname)s - %(message)s", "logs", 10485760, 5),
      others, others, others,
      false, "development", "2.0.0")
  }

  /** A configuration whose only faults are the token and the password reports exactly
      those two, in that order. */
  lemma {:induction false} OnlySecretsMissing(c: BotConfig)
    requires c.telegram.token == "" && c.security.encryptionPassword == PlaceholderPassword
    requires c.media.maxFileSize > 0 && c.media.maxVideoDuration > 0
    requires c.scheduler.interval > 0 && c.scheduler.maxRetries >= 0 && IsValidLogLevel(c.logging.level)
    ensures Errors(c) == [MissingToken, WeakEncryptionPassword]
  {
    var ch := Checks(c);
    assert ch[1..][1..] == ch[2..];
    var tail := Collect(ch[2..]);
    assert forall i :: 0 <= i < |ch[2..]| ==> !ch[2..][i].0;
    assert Collect(ch[1..]) == [WeakEncryptionPassword];
    assert Collect(ch) == [MissingToken, WeakEncryptionPassword];
  }

  /** With no environment at all, loading fails on exactly the token and the password. */
  lemma EmptyEnvironmentRejected(others: map<string, Value>)
    ensures Errors(Defaults("", PlaceholderPassword, others)) == [MissingToken, WeakEncryptionPassword]
    ensures Validate(Defaults("", PlaceholderPassword, others)).Err?
  {
    assert Text.Upper("INFO") == "INFO";
    OnlySecretsMissing(Defaults("", PlaceholderPassword, others));
  }

  /** A token and a real password are all the defaults need. */
  lemma {:induction false} DefaultsValidWithSecrets(token: string, password: string, others: map<string, Value>)
    requires token != "" && password != "" && password != PlaceholderPassword
    ensures Validate(Defaults(token, password, others)) == Ok(Defaults(token, password, others))
  {
    assert Text.Upper("INFO") == "INFO";
  }

  /** `SecurityConfig.__dict__`. */
  function SecurityDict(s: SecurityConfig): (d: map<string, Value>)
    ensures d.Keys == {"encryption_password", "allowed_users", "webhook_secret", "rate_limit_enabled",
                       "max_requests_per_hour"}
    ensures d["encryption_password"] == Str(s.encryptionPassword)
    ensures d["allowed_users"] == NoValue <==> s.allowedUsers.None?
    ensures s.allowedUsers.Some? ==> d["allowed_users"] == Ints(s.allowedUsers.value)
    ensures d["webhook_secret"] == NoValue <==> s.webhookSecret.None?
    ensures s.webhookSecret.Some? ==> d["webhook_secret"] == Str(s.webhookSecret.value)
    ensures d["rate_limit_enabled"] == Bool(s.rateLimitEnabled)
    ensures d["max_requests_per_hour"] == Int(s.maxRequestsPerHour)
  {
    map[
      "encryption_password" := Str(s.encryptionPassword),
      "allowed_users" := (match s.allowedUsers case Some(xs) => Ints(xs) case None => NoValue),
      "webhook_secret" := (match s.webhookSecret case Some(w) => Str(w) case None => NoValue),
      "rate_limit_enabled" := Bool(s.rateLimitEnabled),
      "max_requests_per_hour" := Int(s.maxRequestsPerHour)]
  }

  function OptStr(o: Option<string>): Value
  {
    match o case Some(s) => Str(s) case None => NoValue
  }

  function TelegramDict(t: TelegramConfig): map<string, Value>
  {
    map["token" := Str(t.token), "webhook_url" := OptStr(t.webhookUrl), "use_webhook" := Bool(t.useWebhook),
        "webhook_port" := Int(t.webhookPort), "webhook_listen" := Str(t.webhookListen)]
  }

  function MediaDict(m: MediaConfig): map<string, Value>
  {
    map["max_file_size" := Int(m.maxFileSize), "max_video_duration" := Int(m.maxVideoDuration),
        "max_reel_duration" := Int(m.maxReelDuration), "allowed_photo_formats" := Strs(m.allowedPhotoFormats),
        "allowed_video_formats" := Strs(m.allowedVideoFormats), "temp_dir" := Str(m.tempDir)]
  }

  function SchedulerDict(s: SchedulerConfig): map<string, Value>
  {
    map["interval" := Int(s.interval), "max_concurrent_jobs" := Int(s.maxConcurrentJobs),
        "retry_delay" := Int(s.retryDelay), "max_retries" := Int(s.maxRetries), "timezone" := Str(s.timezone)]
  }

  function LoggingDict(l: LoggingConfig): map<string, Value>
  {
    map["level" := Str(l.level), "format" := Str(l.format), "log_dir" := Str(l.logDir),
        "max_file_size" := Int(l.maxFileSize), "backup_count" := Int(l.backupCount)]
  }

  /** The security section as `to_dict` writes it: every field but the password. */
  function RedactedSecurity(s: SecurityConfig): (d: map<string, Value>)
    ensures "encryption_password" !in d
    ensures d.Keys == SecurityDict(s).Keys - {"encryption_password"}
    ensures forall k :: k in d ==> d[k] == SecurityDict(s)[k]
  {
    var security := SecurityDict(s);
    map k | k in security && k != "encryption_password" :: security[k]
  }

  /** An entry of the dictionary `to_dict` returns: a section's dictionary or a scalar. */
  datatype Entry = Section(fields: map<string, Value>) | Scalar(value: Value)

  /** `to_dict`: every section's `__dict__` and the three scalars, with the security
      section's dictionary minus its `encryption_password` key. */
  function ToDict(c: BotConfig): (d: map<string, Entry>)
    ensures "security" in d && d["security"] == Section(RedactedSecurity(c.security))
  {
    map[
      "telegram" := Section(TelegramDict(c.telegram)),
      "database" := Section(c.database),
      "security" := Section(RedactedSecurity(c.security)),
      "instagram" := Section(c.instagram),
      "media" := Section(MediaDict(c.media)),
      "scheduler" := Section(SchedulerDict(c.scheduler)),
      "logging" := Section(LoggingDict(c.logging)),
      "notifications" := Section(c.notifications),
      "redis" := Section(c.redis),
      "monitoring" := Section(c.monitoring),
      "debug" := Scalar(Bool(c.debug)),
      "environment" := Scalar(Str(c.environment)),
      "version" := Scalar(Str(c.version))]
  }

  /** The serialised configuration does not depend on the encryption password: two
      configurations that differ only there serialise identically. */
  lemma {:induction false} ToDictHidesPassword(c: BotConfig, password: string)
    ensures ToDict(c.(security := c.security.(encryptionPassword := password))) == ToDict(c)
  {
    RedactionIgnoresPassword(c.security, password);
  }

  /** The redacted security section is the same whatever the password. */
  lemma RedactionIgnoresPassword(s: SecurityConfig, password: string)
    ensures RedactedSecurity(s.(encryptionPassword := password)) == RedactedSecurity(s)
  {
    var a := RedactedSecurity(s.(encryptionPassword := password));
    var b := RedactedSecurity(s);
    assert a.Keys == b.Keys;
    forall k | k in a ensures a[k] == b[k] {
      assert k != "encryption_password";
    }
  }

  /** The module global `_config` and what one `get_config` call returned. */
  datatype ConfigCall = ConfigCall(cache: Option<BotConfig>, result: Result<BotConfig, string>, loaded: bool)

  /** `get_config`: the cached configuration when there is one; otherwise `load_config`
      runs `BotConfig()`, caching the result on success and re-raising otherwise (so the
      cache stays empty). `built` is what constructing the sections gave before
      `__post_init__` validates them: the configuration, or the exception of a default
      factory (`int(x)` of an `ALLOWED_USERS` entry) or of creating a directory. */
  function GetConfig(cache: Option<BotConfig>, built: Result<BotConfig, string>): (r: ConfigCall)
    ensures cache.Some? ==> r == ConfigCall(cache, Ok(cache.value), false)
    ensures cache.None? ==> r.loaded
    ensures cache.None? && built.Err? ==> r.result == built
    ensures cache.None? && built.Ok? ==> r.result == Validate(built.value)
    ensures r.result.Ok? ==> r.cache == Some(r.result.value)
    ensures r.result.Err? ==> r.cache.None?
  {
    match cache
    case Some(c) => ConfigCall(cache, Ok(c), false)
    case None =>
      match built
      case Err(msg) => ConfigCall(None, Err(msg), true)
      case Ok(candidate) =>
        match Validate(candidate)
        case Ok(c) => ConfigCall(Some(c), Ok(c), true)
        case Err(msg) => ConfigCall(None, Err(msg), true)
  }

  /** Successive calls of `get_config` from cache `cache`; `builds[k]` is what call `k`
      would construct if it loaded (the environment may change between calls). Gives
      what each call returned and how many of them loaded. */
  function GetConfigCalls(cache: Option<BotConfig>, builds: seq<Result<BotConfig, string>>)
    : (r: (seq<Result<BotConfig, string>>, nat))
    decreases |builds|
    ensures |r.0| == |builds| && r.1 <= |builds|
  {
    if builds == [] then ([], 0)
    else
      var first := GetConfig(cache, builds[0]);
      var rest := GetConfigCalls(first.cache, builds[1..]);
      ([first.result] + rest.0, rest.1 + (if first.loaded then 1 else 0))
  }

  /** Once the first call loads a valid configuration, no later call loads again, and
      every call returns that configuration whatever later loads would have built. */
  lemma {:induction false} GetConfigLoadsOnce(builds: seq<Result<BotConfig, string>>)
    requires |builds| > 0 && builds[0].Ok? && Validate(builds[0].value).Ok?
    ensures var (results, loads) := GetConfigCalls(None, builds);
      && loads == 1
      && forall i :: 0 <= i < |builds| ==> results[i] == Ok(builds[0].value)
  {
    CachedCallsAgree(builds[0].value, builds[1..]);
  }

  lemma {:induction false} CachedCallsAgree(c: BotConfig, builds: seq<Result<BotConfig, string>>)
    ensures var (results, loads) := GetConfigCalls(Some(c), builds);
      && loads == 0 && forall i :: 0 <= i < |builds| ==> results[i] == Ok(c)
  {
    if builds != [] {
      CachedCallsAgree(c, builds[1..]);
    }
  }

  /** While loading keeps failing, every call loads again and raises what its own load
      raised; with an unchanged environment that is the same error each time. */
  lemma {:induction false} GetConfigRetriesFailures(builds: seq<Result<BotConfig, string>>)
    requires forall k :: 0 <= k < |builds| ==> GetConfig(None, builds[k]).result.Err?
    ensures var (results, loads) := GetConfigCalls(None, builds);
      && loads == |builds|
      && forall k :: 0 <= k < |builds| ==> results[k] == GetConfig(None, builds[k]).result
  {
    if builds != [] {
      var tail := builds[1..];
      assert forall k :: 0 <= k < |tail| ==> tail[k] == builds[k + 1];
      GetConfigRetriesFailures(tail);
      var first := GetConfig(None, builds[0]);
      var rest := GetConfigCalls(None, tail);
      assert GetConfigCalls(None, builds) == ([first.result] + rest.0, rest.1 + 1);
    }
  }
}
