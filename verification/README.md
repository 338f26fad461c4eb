# Instagram scheduling bot: a Dafny model of its queues, accounts and configuration

This project models the logic core of a Telegram bot that schedules posts, stories and
reels for Instagram accounts, and proves properties of that model.

- **main.py.** The bot checks Telegram input with `validate_input` and retries remote
  logins with a `retry` decorator. It keeps an account table with upsert
  (`add_account`) and client lookup (`get_account_client`). It keeps a publication
  table filled by `add_to_queue` and drained by a `scheduler` loop. Each loop pass
  dispatches every due row to `publish_post`, `publish_story` or `publish_reel`, then
  sends a notification. The `/done` step of the upload conversation routes to the
  caption or to the publish time.
- **insta_bot.py.** An older single-process bot with two in-memory lists: a post
  queue and a story queue. It has an append, a first-due lookup, a tick that publishes
  at most one post and one story, and "cancel the last item if it is still queued".
- **config.py.** Validates the configuration, serialises it without the encryption
  password, and loads it lazily once.
- **database_utils.py.** Maintenance commands: import accounts from the old pickle
  file, statistics, cleanup of old publications, and an orphan check.

Timestamps are integers (seconds). Every remote or foreign effect is a parameter:

- decryption and encryption;
- each login attempt and each upload call, as `Attempt` values;
- the video-duration probe;
- the notification's exception;
- the date parser of `handle_time`;
- the content of the pickle file.

Modules:

- `Wrappers`: Option, Result and Attempt.
- `Lifecycle`: publication status.
- `Text`: ASCII character classes, lower/upper/strip, and `"\n".join`.
- `Validators`: `validate_input`.
- `Retry`: the `retry` decorator.
- `Accounts`: the account table, the login and the 2FA step.
- `Publications`: the main.py queue, the publishers, the scheduler pass and `/done`.
- `ListQueue`: insta_bot.py.
- `Config`: config.py.
- `Maintenance`: database_utils.py.

## Model

| member | source | states |
|---|---|---|
| Validators.UsernameAdmittedIff | main.py:175-178 | a username passes iff it matches `^[a-zA-Z0-9._]{1,30}$` under `re.match`, where `$` also accepts one final newline |
| Validators.CodeAdmittedIff | main.py:179-182 | a 2FA code passes iff it is exactly six digits, optionally followed by one newline |
| Validators.TimeAdmittedIff | main.py:183-186 | a time passes iff its lower-cased text is `now` or it has the `DD.MM.YYYY HH:MM` digit shape |
| Validators.ChompMatches | main.py:176 | an anchored match of a shape that never ends in a newline is the same as the shape holding of the text with one final newline removed |
| Validators.CodeExamples | main.py:180 | "123456" and "123456\n" pass; "12a45b" and "1234" are refused |
| Retry.AttemptsFrom | main.py:158-164 | attempts run in order until one returns; sleep j lasts `delay * 2^(k+j)` and is never negative; every attempt before the last one made raised. With `delay >= 0` a raise escapes only from the final attempt, as that attempt's exception. With `delay < 0` the first failure that is not the final attempt ends the run with the ValueError of `sleep` |
| Retry.Retry | main.py:154-167 | at most `max_attempts` calls; the first success is returned; with no attempts it returns None. With `delay >= 0` the wrapper raises iff every attempt raises, re-raising the last attempt's exception. With `delay < 0` it makes one call and raises iff that call raised: the call's own exception when it was the only attempt, otherwise the ValueError of `sleep` |
| Retry.RetrySleepTotal | main.py:164 | the sleeps of a run with c calls add up to `delay * (2^(c-1) - 1)`, with no sleep after the final attempt; with a negative delay no sleep completes, so the total is 0 |
| Retry.RetryOfNonRaising | main.py:158-160 | a function that returns on its first call is called once, with no sleep; this is why the retry on the `publish_*` methods never repeats anything |
| Accounts.PlanLogin | main.py:264-272 | the code goes into the login call only when both code and channel are truthy and the channel is `email`; for another channel the challenge handler follows, without the code; otherwise it is a plain password login |
| Accounts.AddAccount | main.py:290-328 | the account is added iff the login succeeds within three attempts. A failure leaves the table as it was. A new username appends one active row. An existing username has only its password, verification method and last-used time overwritten, and is reactivated. Usernames stay unique |
| Accounts.AddLeavesOneActiveRow | main.py:309-321 | after a successful add exactly one row holds the username, and that row is active with the new password, method and time |
| Accounts.ActiveIndexOf | main.py:332-334 | the lookup finds a row with the username that is active, and finds none iff no such row exists |
| Accounts.GetAccountClient | main.py:330-350 | AccountNotFound iff no active row has the username. A client is returned iff the active row's password decrypts and the login succeeds within its three attempts. Only that row's last-used time changes |
| Accounts.HandleTwoFactorCode | main.py:1380-1402 | text that is not six digits gets a reply and nothing else happens. A valid code with any of username, password or method missing gets the missing-data reply and nothing else. Otherwise `add_account` is called with the stripped code, which is the text less its final newline. The account table is exactly what `add_account` leaves, and the reply is "added" iff it reports success |
| Accounts.CodeStepAddsAccount | main.py:1380-1402 | a valid code with the remembered data, whose login succeeds, ends with the reply "added" and exactly one active row for the username, holding the new encrypted password and method |
| Accounts.StrippedCode | main.py:1383 | stripping an admitted code only removes its final newline, which leaves exactly six digits |
| Publications.AddToQueue | main.py:505-523 | the new row is queued, has a fresh id and the given fields, and its time is the given one or now; the table only grows by that row |
| Publications.EnqueuedIsDue | main.py:516 | a row queued without a time is due at every later pass |
| Publications.PublishPost | main.py:377-423 | the row is published iff a client is obtained and every planned upload returns; it then has the time stamped, otherwise it is failed with an error message. A missing active account fails it with no upload. On success the upload made is a single photo or video upload, or an album upload when the path count is not one. The posts counter of that account alone grows by one |
| Publications.PublishStory | main.py:425-462 | as for posts: published iff a client is obtained and every story upload (one per path) returns, and the stories counter grows |
| Publications.PublishReel | main.py:464-503 | published iff a client is obtained, there is a first path, its video is within the configured maximum and its clip upload returns. The reels counter grows on success; a video that is too long fails the row with no upload |
| Publications.LookupReadyIff | main.py:330-347 | a publication gets a client iff its account has an active row whose stored password decrypts and whose login succeeds within three attempts |
| Publications.PostOfUnknownMediaPublishesWithoutUpload | main.py:389-404 | a post whose media type is neither photo nor video makes no upload and is still marked published |
| Publications.Dispatch | main.py:543-549 | a post, story or reel row is settled by its publisher. Whether it is published and the account table that results are those of `publish_post`, `publish_story` or `publish_reel` for its content type. A row of any other content type is left exactly as it was |
| Publications.ProcessDue | main.py:542-557 | a due post, story or reel row never stays queued. A notification exception marks the row failed even after a successful publish, and the counter keeps its increment. A row of unknown content type stays queued unless the notification raises. Only status, published time and error change. Whether it is published and the account table are those of the dispatch, and without a notification exception the row is the dispatch's |
| Publications.ProcessDueFrame | main.py:542-557 | how a due row ends does not depend on earlier rows of the same pass, only on usernames, active flags and stored passwords, which no publish changes |
| Publications.SchedulerTick | main.py:527-563 | every row due at the start of the pass is processed, in the order the query returns them; the result does not depend on that order. No other row changes. Each account's counter for each content type grows by exactly its number of successful publishes of that type in the pass. Logins and unique usernames are preserved. No other account field changes, except `last_used`, which is either kept or set to the time of the pass |
| Publications.PostPublishedEndToEnd | main.py:377-415 | a due single-photo post for an active account whose login and upload succeed is published, stamped with the current time, and raises that account's posts counter by one |
| Publications.DoneUpload | main.py:1066-1077 | with no uploaded file the user is told so; posts and reels go to the caption; anything else goes to the publish time |
| ListQueue.AddToQueue | insta_bot.py:43-57 | `post` appends one queued item to the post list only, `story` to the story list only, any other type changes neither; the item's time defaults to now |
| ListQueue.NextItem | insta_bot.py:59-67 | the first item in insertion order that is queued and due, or None iff there is no such item; any type other than `post` reads the story list |
| ListQueue.Publish | insta_bot.py:70-103 | the item is published and stamped iff every upload call returns; otherwise it is failed after the first raising call, and nothing else in it changes |
| ListQueue.ListTick | insta_bot.py:106-128 | a pass changes at most the first due post and the first due story, each to what publishing it gives (published iff all its uploads return, else failed); no other item changes. The story step runs unless the post was published without a caption |
| ListQueue.ListTickAtMostOneEach | insta_bot.py:114-123 | each pass moves at most one post and at most one story out of `queued` |
| ListQueue.CancelLast | insta_bot.py:275-291 | removes at most one item, and only a last item that is still queued. The post list is tried first. Both lists stay prefixes of what they were |
| ListQueue.CancelUndoesAddPost | insta_bot.py:275-282 | cancelling right after queuing a post restores both lists exactly |
| ListQueue.CancelUndoesAddStory | insta_bot.py:275-289 | cancelling right after queuing a story restores both lists, provided the last post is not queued |
| ListQueue.Pack | insta_bot.py:205-208 | the content is the single file when exactly one was uploaded and the list otherwise; unpacking gives back the uploaded files |
| ListQueue.PackedPostUploadsEachFile | insta_bot.py:73-78 | a packed post uploads each uploaded file once, in order, with its caption |
| ListQueue.HandleTime | insta_bot.py:190-238 | the reply is BadTime iff the time is neither `now` nor parsable, and then nothing changes. A pending post is queued before a pending story, and a pending story is queued when no post waits. Each is queued with the packed media (a single file alone, else the list) and the parsed time, or now for `now`. The post gets its caption (default ''), the story none. The reply carries the new queue length |
| ListQueue.QueuedPostUploadsItsMedia | insta_bot.py:205-211 | a post queued from the conversation is later uploaded file by file: every uploaded file once, in upload order, with its caption |
| Config.Errors | config.py:139-165 | the collected list holds exactly the errors that apply, each once, in check order |
| Config.Validate | config.py:137-168 | validation passes iff no error applies; otherwise the message is `Configuration errors:` followed by one `- <error>` line per error |
| Config.MessageListsEveryError | config.py:167-168 | every error that applies appears, whole, in the raised message |
| Text.JoinLinesContains | config.py:168 | each joined line occurs intact in the newline-joined text |
| Config.OnlySecretsMissing | config.py:142-146 | an empty token is an error, and so is the placeholder encryption password |
| Config.EmptyEnvironmentRejected | config.py:142-146 | with the default token and password, loading fails on exactly those two errors |
| Config.DefaultsValidWithSecrets | config.py:52-80 | the default media, scheduler and logging settings pass once a token and a real password are set |
| Config.ZeroRetriesAllowed | config.py:159-160 | `max_retries == 0` is valid; only negative counts are refused |
| Config.LowerCaseLevelsAccepted | config.py:163-165 | log levels are compared after upper-casing, so `info` passes and `TRACE` does not |
| Config.SecurityDict | config.py:19-28 | the security section's dictionary has exactly its five fields, each holding its setting. An unset allowed-users list or webhook secret becomes `None` |
| Config.RedactedSecurity | config.py:225 | the serialised security section has every security field except `encryption_password`, with unchanged values |
| Config.ToDict | config.py:220-236 | the serialised configuration's security section is the redacted one |
| Config.ToDictHidesPassword | config.py:225 | two configurations that differ only in the encryption password serialise identically |
| Config.GetConfig | config.py:238-256 | with a cached configuration that instance is returned without loading. Otherwise loading runs: a construction error is re-raised, else the result of validation is returned. Only a successful load is cached |
| Config.GetConfigLoadsOnce | config.py:249-256 | once the first call loads a valid configuration, no later call loads, and every call returns it whatever the environment would later give |
| Config.CachedCallsAgree | config.py:254-256 | once cached, no call loads again and all return the cached configuration |
| Config.GetConfigRetriesFailures | config.py:238-256 | while loading fails, every call loads again and raises the error of its own load |
| Maintenance.MigrateFromPickle | database_utils.py:84-125 | a missing or unreadable file returns False with the table unchanged. Existing rows are never modified. A new row is added for each pickled username not yet present, and for no other. The migrated count equals the number of rows added. Unique usernames stay unique |
| Maintenance.MigratedRow | database_utils.py:105-112 | an imported row keeps its username and is active with zero counters |
| Maintenance.DatabaseStats | database_utils.py:127-153 | each count is the number of rows that pass its filter: active accounts, publications per status, and publications per content type. The status counts together are at most all publications, and so are the content-type counts |
| Maintenance.ActiveCount | database_utils.py:135 | the active-account count is the number of rows with `is_active` set |
| Maintenance.StatusCount | database_utils.py:139-141 | a status count is the number of publications with that status |
| Maintenance.KindCount | database_utils.py:147-150 | a content-type count is the number of publications of that type |
| Maintenance.CountIsPositions | database_utils.py:134-150 | counting the rows that satisfy a filter gives the size of the set of their positions |
| Maintenance.CleanupAsWrittenAlwaysRaises | database_utils.py:161-164 | the cleanup as written raises NameError on every call, before its `try` |
| Maintenance.CleanupOldData | database_utils.py:161-182 | the intended cleanup deletes exactly the published or failed rows created before `now - days`, keeps the others, and returns the number deleted |
| Maintenance.CleanupKeepsUnfinished | database_utils.py:168-171 | queued and cancelled rows survive the cleanup whatever their age |
| Maintenance.CleanupIdempotent | database_utils.py:168-171 | a second cleanup with the same cutoff deletes nothing |
| Maintenance.OrphanCount | database_utils.py:197-201 | the orphan count is zero iff every publication names an account |
| Maintenance.VerifyIntegrity | database_utils.py:184-208 | the integrity check passes iff every publication's account name is in the account table, active or not |
| Maintenance.IntegritySurvivesMigration | database_utils.py:197-205 | adding accounts never makes the integrity check fail |
| Maintenance.IntegritySurvivesCleanup | database_utils.py:197-205 | deleting publications never makes the integrity check fail |

## Left out

- Telegram handlers, menus, keyboards, message texts and conversation wiring are presentation, so they are not modelled. Only the `/done` routing, the 2FA code step and insta_bot.py's `handle_time` are kept.
- instagrapi calls are foreign remote calls. Each login attempt and upload call is a parameter that returns or raises.
- Fernet encryption and key derivation are cryptography. `encrypt` and `decrypt` are opaque parameters, and decryption may fail.
- SQLAlchemy sessions, commits, rollbacks, pickle decoding and backups are persistence. The tables are sequences, and a rollback is the unchanged sequence.
- `create_tables`, `drop_tables` and `backup_database` are not modelled.
- `enhanced_insta_bot` is not part of this model. The maintenance commands run over main.py's account and publication tables, whose columns and defaults they use.
- Threads, `sleep` and the endless scheduler loop are not modelled. One pass is a method, and the sleeps of `retry` are recorded as a list of durations.
- The weekly report loop is not modelled.
- pytz conversion and `strptime` are not modelled. Times are integers, and the date parser of `handle_time` is a parameter.
- Percentages, the video-duration probe and file-size checks are not modelled. The duration of a video is an integer parameter.
- `validate_media_file`, `get_2fa_methods`, `create_publication` and `send_weekly_report` are outside the named core.
- Validators.Admits: `\d` is taken as the ASCII digits, while Python also accepts other Unicode decimal digits.
- Validators.TimeAdmittedIff: `lower()` is ASCII-only; Python also lowers non-ASCII capitals.
- Config.IsValidLogLevel: `upper()` is ASCII-only. Python also maps characters such as 'ı' and 'ſ' to ASCII capitals, so it accepts a few more spellings.
- Accounts.StrippedCode: `strip()` is modelled on ASCII white space only. This matters only for text that has already passed the six-digit check.
- Config.GetConfig: instance identity is value equality. What each load's `BotConfig()` construction gives (the configuration, or the exception of `int(x)` on an `ALLOWED_USERS` entry or of creating a directory) is an input, one per call; the environment and file system behind it are not modelled.
- Config.ToDict: the five sections `validate` does not read are kept as their dictionaries, without field types.
- Publications.SchedulerTick and ListQueue.ListTick: one clock reading per pass stamps every row and account touched in it. The source reads the clock again at each stamp (main.py:344, 405, 444, 485; insta_bot.py:62, 81, 98), so its stamps within one pass can differ by the time the pass takes.
- Publications.SchedulerTick: a pass keeps its session state in memory. A `failed` status set without a commit (the "no client" branch) is treated as written.
- ListQueue.ListTick: the TypeError of `caption[:20]` is the only exception the outer `except` can see. Its 30-second sleep is not modelled.
- Maintenance.DatabaseStats: a failing query, which returns `{}`, is not modelled. The `user_settings` count is a parameter.
- Maintenance.VerifyIntegrity: the per-table `COUNT(*)` logging and a failing query are not modelled.

## Findings

| source | as written | input that shows it | evidently intended | confidence | as-written member | corrected member |
|---|---|---|---|---|---|---|
| database_utils.py:164 | the cutoff is computed with `timedelta`, which line 10 never imports; the NameError is raised before the `try`, so the caller gets an exception and nothing is deleted | any call, e.g. `cleanup_old_data(30)` on any table | delete published and failed rows created before `now - days` days and return their count | high, not executed | Maintenance.CleanupAsWritten | Maintenance.CleanupOldData |
