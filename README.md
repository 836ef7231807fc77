# EmailNews scheduler core, modelled in Dafny

EmailNews runs scheduled prompts. Each task in its configuration has a prompt and an interval such as
"5 seconds" or "1 day 08:00". The scheduler turns every task whose interval it can read into a job. Each
run of a job produces a (simulated) model response and mails it out through SMTP. This project models
four pieces of that program and proves properties of them:

- **Scheduler** (`scheduler.py`), in modules `Interval` and `Scheduling`:
  - the interval classifier `_parse_interval`, as a pure function to a repeat rule;
  - the job list and the start/stop state, as the class `Scheduling.Scheduler`. Its fields are `jobs`
    and `running`, and its methods are `AddTask`, `RemoveTask`, `Start` and `Stop`;
  - the action every job runs, as `Scheduling.RunTask`: the email gate, the subject, the two bodies
    and the hand-over to the email sender.
- **Configuration store** (`config_manager.py`), module `Config`. The JSON file is the `file` field of
  `Config.ConfigStore`. Loading fills missing keys from the default configuration; the model has that
  both as a function (`WithDefaults`) and as the loop that does it (`FillSmtpDefaults`). The task list
  operations are the add with its duplicate-id check, the update of the first match, and the removal
  of all matches.
- **Email sender** (`email_sender.py`), module `Email`. `Email.EmailSender` covers the validations made before
  anything is sent, the headers, the order of the parts, and the order of the SMTP commands. The SMTP
  exchange is an input: a parameter names the command that raises, if any.
- **Simulated generation client** (`gemini_client.py`), module `Gemini`. `Gemini.GeminiClient` holds
  the key; its response is a pure string function of the key, the prompt and the search flag.

Supporting modules:

- `Text` models the Python string behaviour the core relies on: `str.lower()` (ASCII letters),
  `str.split()`, the substring test `in`, `int()` on a decimal token and `str(n)`.
- `Records` models scalar JSON values with Python truthiness, and the task record.
- `Wrappers` holds `Option`.
- The `__main__` blocks of `scheduler.py` and `config_manager.py` are replayed as `SchedulingExample.Demo`
  and `ConfigExample.Demo`. Their assertions become postconditions.

Clock, save success and SMTP failure are parameters:

- `clock` is the time text that `time.strftime` would give;
- `writable` says whether a write to the configuration file succeeds;
- `failure` names the SMTP command that raises.

The code has several quirks, and the model keeps them as written:

- the HTML body replaces the letter `n` (not a newline) with `<br>`;
- the scheduler builds its own simulated response, because its call into the generation client is
  commented out;
- a daily-at-time interval never reads its quantity token.

## Model

| member | source | states |
|---|---|---|
| Interval.ParseTokens | scheduler.py:85-105 | a rule is found exactly when there are two or more tokens, the second names a unit, and either the first is an integer or the unit is a day and a third token contains ':'. An `Every` rule carries the integer value of the first token and the unit of the second; a daily rule carries the third token |
| Interval.UnitOfSecondWord | scheduler.py:86-87 | every unit word that contains "second" is the seconds unit |
| Interval.ParseIntervalOfSingular | scheduler.py:75-96 | "n second", "n minute", "n hour" and "n day" repeat every n of that unit, for every integer n |
| Interval.ParseIntervalIgnoresCase | scheduler.py:82 | the interval text is read case-insensitively |
| Interval.ParseIntervalNeedsTwoTokens | scheduler.py:82-105 | fewer than two tokens (IndexError) give no rule |
| Interval.ParseIntervalUnknownUnit | scheduler.py:86-101 | a second token containing none of second/minute/hour/day gives no rule |
| Interval.ParseIntervalOfRender | scheduler.py:82-102 | every rule written out as "n unit" or "1 day time" is read back as itself (round trip) |
| Interval.DailyAtIgnoresQuantity | scheduler.py:92-94 | "q day t" with ':' in t gives the daily rule at lower-cased t for any quantity token q, integer or not |
| Interval.ExampleFiveSeconds | scheduler.py:236 | "5 seconds" is every 5 seconds |
| Interval.ExampleTenSeconds | scheduler.py:237 | "10 seconds" is every 10 seconds |
| Interval.ExampleOneHour | scheduler.py:90-91 | "1 hour" is every hour |
| Interval.ExampleOneMinute | scheduler.py:75 | "1 minute" is every minute |
| Interval.ExampleOneDay | scheduler.py:95-96 | "1 day" with no time is every day |
| Interval.ExampleDailyAtEight | scheduler.py:238 | "1 day 08:00" is daily at 08:00 |
| Interval.ExampleBlueMoon | scheduler.py:239 | "every blue moon" gives no rule |
| Interval.ExampleMilliseconds | scheduler.py:86-87 | "5 milliseconds" counts as seconds, because "second" is a substring of the unit word |
| Interval.ExampleWeeks | scheduler.py:86-101 | "2 weeks" gives no rule: there is no week unit |
| Interval.ExampleNonInteger | scheduler.py:88-105 | "five minutes" gives no rule (ValueError) |
| Scheduling.JobFor | scheduler.py:182-199 | a task yields a job exactly when its interval parses; the job is tagged with the task's id or `task_<1-based position>`; the job carries the parsed rule, the prompt, the search flag and the global SMTP config; the per-task key and recipient win over the global ones |
| Scheduling.WithoutTag | scheduler.py:137 | the result is no longer than the input and no kept job carries the tag |
| Scheduling.WithoutTagMembers | scheduler.py:137 | a job is kept exactly when it was there and carries another tag |
| Scheduling.WithoutTagAppend | scheduler.py:137 | removal works job by job, so the kept jobs keep their order |
| Scheduling.WithoutAbsentTag | scheduler.py:133-138 | removing an id no job carries changes nothing |
| Scheduling.WithoutTagIdempotent | scheduler.py:133-138 | removing twice is removing once |
| Scheduling.CollectMembers | scheduler.py:182-199 | a job is collected exactly when some candidate is that job |
| Scheduling.CollectAll | scheduler.py:182-199 | nothing is dropped exactly when every candidate is a job |
| Scheduling.ScheduledStep | scheduler.py:182-199 | scheduling one more task appends its job, if any, at the end |
| Scheduling.ScheduledMembers | scheduler.py:182-199 | a job is scheduled exactly when some task produced it at its 1-based position |
| Scheduling.ScheduledAll | scheduler.py:182-201 | every task gets a job exactly when every interval parses |
| Scheduling.Scheduler.constructor | scheduler.py:7-9 | the job list starts empty and the worker is not running |
| Scheduling.Scheduler.AddTask | scheduler.py:107-131 | succeeds exactly when the interval parses, then appends exactly one job tagged with the id; otherwise the list is unchanged |
| Scheduling.Scheduler.RemoveTask | scheduler.py:133-138 | the job list becomes the jobs with another tag, in order |
| Scheduling.Scheduler.Start | scheduler.py:162-207 | a no-op while running; otherwise the list is rebuilt as the jobs of the parseable tasks in order, and the worker runs even with no jobs |
| Scheduling.Scheduler.Stop | scheduler.py:209-224 | afterwards not running; the list is emptied if the worker was running and unchanged otherwise |
| Scheduling.Take | scheduler.py:49 | `prompt[:n]` is the prefix of length min(n, len) |
| Scheduling.ReplaceN | scheduler.py:53 | no letter `n` is left after the replacement |
| Scheduling.ReplaceNAt | scheduler.py:53 | each letter `n` becomes `<br>` in its place, and the text on either side is converted on its own |
| Scheduling.ReplaceNKeeps | scheduler.py:53 | every character other than `n` is copied unchanged in its place |
| Scheduling.PyIntOfText | scheduler.py:44 | a port stored as the text of an integer is read as that integer |
| Scheduling.PyIntOfPaddedText | scheduler.py:44 | white space around the number in a stored port is ignored |
| Scheduling.RunTask | scheduler.py:14-68 | the response; the message reaches the email sender exactly when the gate passes, "port" is present and readable, and "password" is present; email is skipped exactly when the gate fails; a missing "port" or "password" is a KeyError and an unreadable port an error; otherwise the message has the subject, sender and recipient headers and the plain then HTML body, exists exactly when the password is truthy and the port is not 0, and is sent exactly when no session command fails |
| Scheduling.HandOver | scheduler.py:42-60 | the sender is built from the config; the message with the subject, sender, recipient and the plain then HTML body exists exactly when the password is truthy and the port is not 0, and is sent exactly when no session command fails |
| Scheduling.EmailGateKeys | scheduler.py:38 | the gate holds exactly when "server" and "user" are present and truthy |
| Scheduling.SubjectShape | scheduler.py:49 | the subject is the fixed prefix, the prompt cut to 30 characters, and "..."; at most 60 characters |
| Scheduling.ReplaceNWithoutLetter | scheduler.py:53 | text without the letter `n` goes into the HTML body unchanged |
| Scheduling.ReplaceNAppend | scheduler.py:53 | the replacement works piece by piece |
| Scheduling.ReplaceNLength | scheduler.py:53 | every letter `n` grows by three characters, and nothing else changes length |
| Scheduling.BodiesQuote | scheduler.py:53-54 | the HTML body quotes the converted response; the text body quotes the prompt and the response unchanged |
| SchedulingExample.ScheduledExample | scheduler.py:235-242 | the four demo tasks yield the joke, news and weather jobs in order; "every blue moon" is dropped |
| SchedulingExample.RemoveJokeExample | scheduler.py:251-252 | removing "joke_task" leaves the news and weather jobs |
| SchedulingExample.StartStage | scheduler.py:235-242 | starting the demo tasks leaves the joke, news and weather jobs and a running worker |
| SchedulingExample.RemoveStage | scheduler.py:251-252 | the removal of "joke_task" leaves the news and weather jobs |
| SchedulingExample.RunWithoutServer | scheduler.py:37-68 | a run of a job whose SMTP config has no "server" skips the email |
| SchedulingExample.Demo | scheduler.py:226-261 | the demo run: tags, rules, per-task keys and recipients, removal of the first job, an empty list after stop, and no email for the "host"-only SMTP config |
| Config.WithDefaults | config_manager.py:49-57 | every value already in the file is kept; every missing top-level key and SMTP sub-key takes its default; no other key appears |
| Config.FillSmtpDefaults | config_manager.py:54-57 | the loop over the default sub-keys yields the stored settings with each absent default added |
| Config.FillDefaults | config_manager.py:49-60 | the loading loop yields exactly `WithDefaults` of the stored configuration |
| Config.FirstWithId | config_manager.py:116-120 | the position of the first task with the id; none exactly when no task has it |
| Config.ReplaceFirst | config_manager.py:115-120 | found exactly when some task has the id, and then only the first such position is replaced; otherwise the list is unchanged |
| Config.ReplaceFirstKeepsOthers | config_manager.py:116-119 | the replacement keeps the length and every other position |
| Config.WithoutId | config_manager.py:131-133 | the result is no longer than the input and no kept task has the id |
| Config.WithoutIdMembers | config_manager.py:131-133 | a task is kept exactly when it was there and has another id |
| Config.WithoutIdAppend | config_manager.py:131-133 | removal works task by task, so the kept tasks keep their order |
| Config.WithoutIdShrinks | config_manager.py:130-134 | the list shrinks exactly when some task has the id; otherwise it is unchanged |
| Config.NoIdNeverTaken | config_manager.py:104-105 | a task without a truthy id is never taken for a duplicate |
| Config.IdTakenIff | config_manager.py:104-105 | a truthy id is taken exactly when some stored task carries it |
| Config.LoadOfDump | config_manager.py:42-84 | a saved configuration that has every default SMTP sub-key loads back as itself |
| Config.WithDefaultsIdempotent | config_manager.py:42-84 | saving a loaded configuration and loading it again changes nothing |
| Config.ConfigStore.constructor | config_manager.py:29-39 | the store starts with the given file |
| Config.ConfigStore.SaveConfig | config_manager.py:72-89 | succeeds exactly when the file is writable, and then the file holds the configuration; otherwise the file is untouched |
| Config.ConfigStore.LoadConfig | config_manager.py:42-70 | the loaded configuration for each state of the file; a missing file loads as the default and is written with it; an unreadable one loads as the default |
| Config.ConfigStore.GetTasks | config_manager.py:93-95 | the task list of the loaded configuration, empty when the key is absent |
| Config.ConfigStore.AddTaskToConfig | config_manager.py:97-110 | a taken id is refused with the stored list unchanged; otherwise the task is appended at the end and saved |
| Config.ConfigStore.UpdateTaskInConfig | config_manager.py:112-125 | succeeds exactly when some task has the id and the save succeeds; only the first match is replaced; an unknown id saves nothing |
| Config.ConfigStore.RemoveTaskFromConfig | config_manager.py:127-138 | succeeds exactly when some task has the id and the save succeeds; every match is dropped and the rest kept in order; otherwise nothing is saved |
| ConfigExample.RemoveSecond | config_manager.py:203-208 | removing "task_002" from the two demo tasks leaves the first |
| ConfigExample.SettingsStage | config_manager.py:149-169 | a missing file loads as the default; the changed key, recipient and SMTP user load back after saving |
| ConfigExample.AddNew | config_manager.py:97-110 | a task whose id is not stored is appended to the stored list |
| ConfigExample.AddStage | config_manager.py:182-190 | both demo tasks are appended in order |
| ConfigExample.UpdateStage | config_manager.py:192-201 | the first task is replaced with its updated copy |
| ConfigExample.RemoveStage | config_manager.py:203-211 | the second task goes; an unknown id removes nothing |
| ConfigExample.ReloadStage | config_manager.py:214-226 | a deleted "use_tls" sub-key loads back with its default |
| ConfigExample.Demo | config_manager.py:140-226 | the assertions of the demo run, step by step |
| Email.Session | email_sender.py:47-51 | a complete session starts by connecting and ends with `sendmail`; STARTTLS is in it exactly when TLS is requested |
| Email.Attempted | email_sender.py:45-62 | the commands issued are a prefix of the session; they end at the failing command, which does not occur earlier; with no failure they are the whole session |
| Email.AttemptedSession | email_sender.py:45-62 | the commands issued for each way the session can fail |
| Email.EmailSender.constructor | email_sender.py:7-12 | the five settings are stored unchanged, and `use_tls` defaults to True |
| Email.EmailSender.SendEmail | email_sender.py:15-62 | a message is built exactly when all four settings are truthy and some body is non-empty. It is a multipart/alternative container with the Subject, From = user and To headers, and a plain part (if any) before an HTML part (if any). STARTTLS is issued only with TLS. The result is True exactly when no session command fails, and then the whole session was issued |
| Email.EmailSender.Deliver | email_sender.py:45-62 | the commands issued are those `Attempted` gives for the session; STARTTLS only with TLS; True exactly when no session command fails, and then the whole session was issued |
| Gemini.GeminiClient.constructor | gemini_client.py:8-9 | the key is stored unchanged |
| Gemini.GeminiClient.SearchExtendsResponse | gemini_client.py:26-47 | with a key, the answer with search is the search result and a blank line in front of the answer without search; without a key the search flag changes nothing |
| Gemini.GeminiClient.ResponseIsErrorIffNoKey | gemini_client.py:26-47 | the answer starts with "Error:" exactly when no key is configured |
| Gemini.GeminiClient.ResponseEndsWithBase | gemini_client.py:41-47 | with a key the answer always ends with the base response |
| Gemini.GeminiClient.ResponseMentionsPrompt | gemini_client.py:41-47 | with a key the answer quotes the prompt |

## Left out

- Threads and timing are left out: the worker thread, `threading.Event`, `run_pending`, the sleep loop
  and the 5-second join timeout. The worker is the `running` flag; the outcome of the join does not
  change the resulting state.
- The `schedule` library is left out. A job is its tag, its repeat rule and its captured arguments.
  Building the library's job object, `schedule.clear`, next-run computation and the `str(job)` lines
  of `list_tasks` are not modelled. The model does not judge whether the library accepts
  `job.seconds(n)` as the source writes it.
- `list_tasks` is not modelled: it only formats the library's jobs as text.
- File and JSON I/O is left out. The file is `ConfigStore.file`. A `json.load` that fails is `Corrupt`,
  and any other exception while loading is treated the same way. Save success is the `writable`
  parameter.
- The model leaves out several details of the stored file:
  - extra unknown keys in it;
  - values of the wrong JSON type;
  - non-scalar SMTP values;
  - JSON `null` for a task's optional keys;
  - partially written files.
- The aliasing of `DEFAULT_CONFIG` is not modelled. When the file is missing, `load_config` returns
  the shared default dictionary itself, so later edits to the result change the default. The model
  returns a fresh value.
- Tasks in the model always have `prompt`, `interval` and `search_internet`, so the KeyError that
  `start_scheduler_thread` raises for a task without one of them is not modelled. The task record also
  always has `enabled`, which the scheduler never reads; the scheduler's demo tasks have no such key
  and are given `true`.
- The outer `load_config` loop over the four top-level keys is written as four conditionals in
  `FillDefaults`. Only the inner sub-key loop is written as a loop.
- `Text.Lower`: lower-cases ASCII letters only, because Python's full Unicode case mapping is not
  needed by any interval word.
- `Text.ParseInt`: accepts ASCII digits only. Python's `int()` also accepts every other Unicode decimal
  digit, so an interval such as "５ seconds" or a port stored as "５８７" is read by the source but gives
  no rule or an unreadable port in the model.
- `Scheduling.PyInt`: reads text as one decimal token with optional sign and underscores; floats
  (`int(587.0)`) and other numeric forms are not modelled.
- SMTP and MIME are left out. The network, `msg.as_string`, the QUIT sent when the `with` block
  exits, and the specific `smtplib` exception classes are not modelled. Any raising command is the
  `failure` parameter, and an exception makes `send_email` return False.
- Within the job's action (`_placeholder_task_function`), the `ImportError` path and the generic
  exception raised by `EmailSender` itself are not modelled. The only exceptions that are modelled are
  an unreadable port and a missing "port" or "password" key.
- `body_text=None` in `send_email` is modelled as the empty text, which Python treats the same way.
- The clock and logging are left out. `time.strftime` is the `clock` parameter. `time.sleep` and all
  `print` output are dropped.
- `Gemini.GeminiClient`: the scheduler never calls it (the call is commented out), so the two texts
  are modelled separately.
- `gui.py` (widgets and event handlers) and `gemini_model_selector.py` (console input and calls into
  the generation library) are not part of this model.
