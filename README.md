# Chronos job client, modelled in Dafny

This project models the Chronos job client of paasta (`paasta_tools/chronos_tools.py`).
The client turns a job's YAML configuration into the payload it submits to the
Chronos scheduler, and it filters Chronos' job listing by name. The model covers:

- **Schedule validation** (`schedule.dfy`, module `Schedule`). A schedule has the
  form `<repeat>/<start time>/<interval>`. The validator splits it on `/` into
  exactly three parts, checks each part on its own and collects one message per
  failing part. The repeat part must match `^R\d*$` under Python 2's `re` module.
  This is an ISO 8601 repeating-interval designator (section 4.5 of ISO 8601),
  and Python's `$` also accepts one final newline. Date-time and duration parsing
  belong to the `isodate` library. They are passed in as oracles (`IsoDate`).
- **Field checks and validation** (`job_config.dfy`, module `JobConfig`). This
  covers the accessors with their defaults, `check_epsilon`, `check_retries`,
  `check_schedule_time_zone`, the `check(param)` dispatcher and `validate`.
  `validate` runs the six checks in a fixed order and never stops early.
  `format_chronos_job_dict` builds the payload only when validation passes, and
  otherwise raises `InvalidChronosConfigError` with all the messages.
- **Identity and revisions** (`identity.dfy`, module `Identity`). This covers
  `get_job_id`, the revision tag `code_sha + " " + config_hash` and the tail of
  `create_complete_config`. That tail renames the payload to the revision's job
  name, with the hash taken before the rename. It then lets the desired run state
  (`start`/`stop`) decide `disabled`.
- **Job lookup** (`lookup.dfy`, module `Lookup`). This is `lookup_chronos_jobs`: an
  order-preserving filter on name match and the disabled flag, followed by the
  `max_expected` guard, which follows Python truthiness.
- **Chronos settings** (`chronos_settings.dfy`, module `ChronosSettings`). These
  are the `ChronosConfig` getters. A missing key raises `ChronosNotConfigured`.
- **Shared modules.** `strings.dfy` holds `str.split` on one character,
  `sep.join` and `%d`. `py_values.dfy` holds the untyped configuration values,
  Python 2's `isinstance(v, int)`, `str()` of a value, the exceptions and a
  returns-or-raises `Result`.

Uncaught exceptions are modelled as `Result.Raise`:

- A `schedule` that is neither `None` nor a string raises `TypeError` in
  `str.split`.
- An `epsilon` that is not a string raises `TypeError` inside `isodate`. This
  is the behaviour of `isodate.parse_duration`.

Where the code's comments and its behaviour disagree, the model follows the behaviour:

- An empty start time adds a message, so the schedule check fails. The comment
  at `paasta_tools/chronos_tools.py:197` says Chronos accepts it as "now", but the
  branch after it appends the "does not contain a start time" message.
- A start time that parses is never rejected for lacking a time zone. The test
  at `paasta_tools/chronos_tools.py:201-205` asks `hasattr(dt, 'tzinfo')`, which
  is true for every parsed date-time, so its message is never produced.
- The comment at `paasta_tools/chronos_tools.py:181` asks for a positive repeat
  count, but the pattern `^R\d*$` accepts `R0`. It also accepts a repeat
  followed by one newline (`R5\n`).
- `validate` walks the fixed list of six names at
  `paasta_tools/chronos_tools.py:297` and never looks at the configuration's
  keys. The "unsupported parameter" message comes only from a direct
  `check(param)` call. `JobConfig.UnknownKeysIgnored` states that a misspelt key
  such as `retriesx` leaves validation unchanged.

Python 2's `int` excludes integers outside the 64-bit range, since those load
as `long`. It also excludes -2^63: PyYAML builds a negative integer by applying
the sign to the digits' value, and 2^63 is already a `long`, so the value stays
one. It includes `True` and `False`, because `bool` subclasses `int`.

## Model

| member | source | states |
|---|---|---|
| `Strings.Split` | paasta_tools/chronos_tools.py:193 | `str.split(schedule, '/')` always gives at least one part |
| `Strings.SplitCount` | paasta_tools/chronos_tools.py:193 | splitting gives one more part than there are `/` characters, so three parts means exactly two slashes |
| `Strings.SplitPartsAvoidSeparator` | paasta_tools/chronos_tools.py:193 | no part of the split contains the separator |
| `Strings.SplitJoin` | paasta_tools/chronos_tools.py:193 | joining the parts with `/` gives back the schedule |
| `Strings.SplitWithoutSeparator` | paasta_tools/chronos_tools.py:193 | text without `/` splits into itself alone |
| `Strings.SplitAtFirstSeparator` | paasta_tools/chronos_tools.py:193 | the text before the first `/` is the first part and the rest splits on its own |
| `Strings.Join` | paasta_tools/chronos_tools.py:222 | `sep.join(parts)`: empty for no parts, the part itself for one, and it always starts with the first part |
| `Strings.Decimal` | paasta_tools/chronos_tools.py:395 | `%d` of an integer: non-empty, starting with `-` exactly for a negative integer |
| `Strings.NaturalDecimalValue` | paasta_tools/chronos_tools.py:395 | the digits printed for a natural number read back as that number, most significant first, and only zero starts with `0` |
| `Strings.DecimalRoundTrip` | paasta_tools/chronos_tools.py:395 | `%d` prints every integer in canonical form (optional `-`, no leading zero, no `-0`) and reading it back gives the integer, so distinct counts and bounds print differently |
| `PyValues.IsPyInt` | paasta_tools/chronos_tools.py:177 | `isinstance(v, int)` under Python 2 for a YAML-loaded value: true for every bool, for an integer from -(2^63 - 1) to 2^63 - 1, and for nothing else |
| `PyValues.Show` | paasta_tools/chronos_tools.py:178 | `"%s" % v`: `None`, `True`/`False` and a string as itself; an integer in decimal (`Strings.Decimal`); a list is bracketed |
| `Schedule.RepeatMatches` | paasta_tools/chronos_tools.py:183-185 | `_check_schedule_repeat_helper` accepts exactly `R` followed by ASCII digits, with at most one final newline (the `^R\d*$` language under `re.match`) |
| `Schedule.RepeatExamples` | paasta_tools/chronos_tools.py:181-185 | `R`, `R0`, `R5`, `R12`, `R5\n` are accepted; `r5`, `Q5`, `R5x`, the empty string, ` R5`, `R5\n\n` are rejected |
| `Schedule.CheckSchedule` | paasta_tools/chronos_tools.py:187-222 | `check_schedule` returns what `ScheduleCheck` gives. It passes exactly when its message is empty. It raises exactly for a schedule that is neither `None` nor a string, given `isodate` oracles that raise nothing but `ISO8601Error` on a string (see "Left out") |
| `Schedule.ScheduleMessages` | paasta_tools/chronos_tools.py:187-220 | the messages `check_schedule` gathers: at most three. It raises (`TypeError` from `str.split`) exactly for a schedule that is neither `None` nor a string |
| `Schedule.ScheduleCheck` | paasta_tools/chronos_tools.py:187-222 | the `(passed, message)` answer of `check_schedule`. It raises exactly for a schedule that is neither `None` nor a string |
| `Schedule.JoinEmpty` | paasta_tools/chronos_tools.py:222 | newline-joined non-empty messages are empty exactly when there are none |
| `Schedule.ScheduleCheckPassesIffSilent` | paasta_tools/chronos_tools.py:222 | a schedule check that returns passes exactly when its message is empty |
| `Schedule.MalformedScheduleSingleMessage` | paasta_tools/chronos_tools.py:189-222 | a missing schedule, or one with other than two `/`, fails with exactly one message (missing or invalid) and runs no per-part check |
| `Schedule.ThreePartSchedule` | paasta_tools/chronos_tools.py:197-222 | for a three-part schedule there is one message per failing part (empty or unparsable start time, non-duration interval, bad repeat); it passes iff no part fails. Each failing part's own message is in the list: the missing start time, the unparsable start time with the parser's error text (:206-208), the interval, the repeat |
| `Schedule.WellFormedSchedulePasses` | paasta_tools/chronos_tools.py:187-222 | every `R<digits>/<date-time>/<duration>` passes with an empty message |
| `Schedule.EmptyStartTimeFails` | paasta_tools/chronos_tools.py:197-199 | a schedule `<repeat>//<interval>` gets the "does not contain a start time" message and fails |
| `JobConfig.Get` | paasta_tools/chronos_tools.py:142-164 | `config_dict.get(key, default)`: the stored value when the key is present, the default otherwise |
| `JobConfig.Args` | paasta_tools/chronos_tools.py:142-143 | the `args` entry, or `None` when it is absent |
| `JobConfig.Env` | paasta_tools/chronos_tools.py:145-146 | the `env` entry, or `[]` when it is absent |
| `JobConfig.Constraints` | paasta_tools/chronos_tools.py:148-149 | the `constraints` entry, or `None` when it is absent |
| `JobConfig.Epsilon` | paasta_tools/chronos_tools.py:151-152 | the `epsilon` entry, or `PT60S` when it is absent |
| `JobConfig.Retries` | paasta_tools/chronos_tools.py:154-155 | the `retries` entry, or 2 when it is absent |
| `JobConfig.Disabled` | paasta_tools/chronos_tools.py:157-158 | the `disabled` entry, or `False` when it is absent |
| `JobConfig.ScheduleValue` | paasta_tools/chronos_tools.py:160-161 | the `schedule` entry, or `None` when it is absent |
| `JobConfig.ScheduleTimeZone` | paasta_tools/chronos_tools.py:163-164 | the `schedule_time_zone` entry, or `None` when it is absent |
| `JobConfig.CheckEpsilon` | paasta_tools/chronos_tools.py:166-172 | `check_epsilon` passes iff the epsilon (default `PT60S`) is an ISO 8601 duration string, with the empty message `''` on a pass and the source's message otherwise. A non-string raises `TypeError`. A string raises nothing, given an `isodate` oracle that raises nothing but `ISO8601Error` on a string (see "Left out") |
| `JobConfig.CheckRetries` | paasta_tools/chronos_tools.py:154-179 | `check_retries` passes iff retries (default 2) is `None` or a Python 2 `int` (bool included, -(2^63 - 1) to 2^63 - 1); otherwise the message shows the value |
| `JobConfig.CheckScheduleTimeZone` | paasta_tools/chronos_tools.py:232-241 | `check_schedule_time_zone` always passes with an empty message |
| `JobConfig.Check` | paasta_tools/chronos_tools.py:243-258 | `check(param)` fails any name outside the ten supported names, with the message naming it |
| `JobConfig.CheckNames` | paasta_tools/chronos_tools.py:243-258 | `check(param)` fails any name outside the ten supported names with the message naming it; `description`, `command`, `owner`, `disabled` and `scheduleTimeZone` pass; only `epsilon` and `schedule` can raise |
| `JobConfig.CheckDelegates` | paasta_tools/chronos_tools.py:243-258 | `check(param)` answers `epsilon`, `retries`, `cpus`, `mem` and `schedule` with the answer of that field's checker |
| `JobConfig.ValidatedOutcomes` | paasta_tools/chronos_tools.py:297-298 | `validate` asks the epsilon, retries, cpus, mem, schedule and time-zone checkers, in that order |
| `JobConfig.CollectRaiseSticks` | paasta_tools/chronos_tools.py:297-300 | an exception from one check is the exception of the whole validation |
| `JobConfig.CollectPrefix` | paasta_tools/chronos_tools.py:297-300 | messages gathered from earlier checks stay at the front of the final list |
| `JobConfig.Collect` | paasta_tools/chronos_tools.py:297-300 | the messages of the failing answers, in order, or the first exception: at most one message per answer |
| `JobConfig.CollectOk` | paasta_tools/chronos_tools.py:297-300 | when no check raises, the loop finishes without raising |
| `JobConfig.AppendFailures` | paasta_tools/chronos_tools.py:297-300 | the loop of `validate` appends to the messages it starts from exactly what `Collect` gives for the answers, or lets the first exception escape |
| `JobConfig.Validate` | paasta_tools/chronos_tools.py:292-302 | `validate` returns exactly `Validation`: the instance messages followed by every failing check's message, and valid iff the list is empty |
| `JobConfig.Validation` | paasta_tools/chronos_tools.py:292-302 | the answer of `validate`: the messages start with the instance messages, and the job is valid iff there are no messages |
| `JobConfig.CollectReportsAll` | paasta_tools/chronos_tools.py:297-302 | collection raises iff some check raises; otherwise every failing check's message is in the list, every message comes from a failing check, and the list is empty iff all pass |
| `JobConfig.ValidationReportsEveryFailure` | paasta_tools/chronos_tools.py:292-302 | `validate` never short-circuits. It is valid iff there are no instance messages and all six checks pass. The list starts with the instance messages and contains every failing check's message |
| `JobConfig.LeadingFailures` | paasta_tools/chronos_tools.py:297-300 | when the first two checks fail, their messages are the first two collected, in order |
| `JobConfig.BadEpsilonAndRetriesBothReported` | paasta_tools/chronos_tools.py:292-302 | a bad epsilon and bad retries give both messages, epsilon's first, right after the instance messages |
| `JobConfig.UnknownKeysIgnored` | paasta_tools/chronos_tools.py:297 | adding or changing a configuration key that is none of the ten names `check` supports leaves `validate` unchanged, so an unknown key such as `retriesx` is never reported |
| `JobConfig.ValidJobFields` | paasta_tools/chronos_tools.py:262-264 | a job that validates has no instance messages, passing cpus/mem checks, an ISO duration epsilon, retries `None` or int, and a three-part schedule whose parts all validate |
| `JobConfig.JobDictOf` | paasta_tools/chronos_tools.py:266-287 | the payload literal: the job name, a `DOCKER` container on the `BRIDGE` network with the given image and volumes, `async` False, and `PT60S`, 2, False and `[]` for an absent epsilon, retries, disabled and env |
| `JobConfig.FormatJobDict` | paasta_tools/chronos_tools.py:260-289 | `format_chronos_job_dict` raises `InvalidChronosConfigError` with the newline-joined messages (or validation's own exception) and builds nothing when validation fails. Otherwise it builds the payload with the job name, image `docker_url`, the volumes, network `BRIDGE`, type `DOCKER` and `async` false. Absent epsilon, retries, disabled and env become `PT60S`, 2, False and `[]` |
| `Identity.JobId` | paasta_tools/chronos_tools.py:83-87 | `get_job_id` is `service instance tag` for a truthy tag and `service instance` when the tag is `None` or empty |
| `Identity.SplitAtSpace` | paasta_tools/chronos_tools.py:84-86 | text joined by the spacer splits back uniquely when the first piece holds no space |
| `Identity.JobIdInjective` | paasta_tools/chronos_tools.py:83-87 | with space-free service and instance, a tagged job name determines service, instance and tag |
| `Identity.JobIdExtendsBase` | paasta_tools/chronos_tools.py:83-87 | every tagged name extends the untagged `service instance` name |
| `Identity.RevisionTag` | paasta_tools/chronos_tools.py:354 | the tag starts with the code identifier and a space, and the rest is the config hash |
| `Identity.RevisionTagInjective` | paasta_tools/chronos_tools.py:354 | with a space-free code identifier, equal tags mean equal (code identifier, config hash) pairs |
| `Identity.RevisionTagNeedsSpaceFreeSha` | paasta_tools/chronos_tools.py:354 | a code identifier with a space makes two pairs share a tag |
| `Identity.StampRevision` | paasta_tools/chronos_tools.py:354-366 | the name becomes `get_job_id(service, job, code_sha + " " + config_hash)`. `disabled` becomes False for `start` and True for `stop`, and stays unchanged otherwise. No other field changes |
| `Identity.CreateCompleteConfig` | paasta_tools/chronos_tools.py:340-368 | fails exactly as formatting does. Otherwise it returns the formatted payload with the revision name and the state-driven `disabled`. The config hash is taken of the payload while it still carries the plain job name |
| `Identity.RevisionNamesDifferByHash` | paasta_tools/chronos_tools.py:352-359 | for any service, job and code identifier, spaces included, two builds get the same job name iff their config hashes are equal |
| `Identity.RevisionNameSplits` | paasta_tools/chronos_tools.py:354-358 | a revision's job name is `service job code_sha ` followed by the config hash |
| `Lookup.Kept` | paasta_tools/chronos_tools.py:385-391 | the jobs the loop keeps: no more than were listed, and every one matches and is enabled unless disabled jobs were asked for |
| `Lookup.TooMany` | paasta_tools/chronos_tools.py:393 | the `max_expected` guard: `None` and 0 never trip it; any non-zero bound trips exactly when more jobs are kept, so a negative bound always trips |
| `Lookup.LookupChronosJobs` | paasta_tools/chronos_tools.py:371-398 | `lookup_chronos_jobs` raises `ValueError` for an invalid pattern. It raises naming every kept job when `max_expected` is truthy and exceeded. Otherwise it returns exactly the kept jobs |
| `Lookup.KeptMembership` | paasta_tools/chronos_tools.py:386-391 | a job is returned iff it is listed, its name matches, and it is enabled or disabled jobs were asked for |
| `Lookup.SubsequenceOfExtension` | paasta_tools/chronos_tools.py:386-391 | a subsequence stays one when the listing grows at the end |
| `Lookup.SubsequenceDropLast` | paasta_tools/chronos_tools.py:386-391 | dropping the last kept job keeps a subsequence |
| `Lookup.KeptIsSubsequence` | paasta_tools/chronos_tools.py:385-391 | the result keeps the listing's order (it is a subsequence of the listing) |
| `Lookup.IncludeDisabledAddsJobs` | paasta_tools/chronos_tools.py:388-391 | `include_disabled` only adds jobs: the enabled-only result is a subsequence of the full one |
| `Lookup.FooExample` | paasta_tools/chronos_tools.py:384-398 | `^foo ` over `foo bar`, disabled `foo baz` and `qux` keeps `foo bar`, or both `foo` jobs with disabled ones. `max_expected=1` then trips the guard; `0` and `None` do not |
| `ChronosSettings.Setting` | paasta_tools/chronos_tools.py:43-62 | `self[key]`: the entry when present, otherwise `ChronosNotConfigured` naming the key and the file |
| `ChronosSettings.GetUrl` | paasta_tools/chronos_tools.py:43-48 | `get_url` returns the `url` entry, or raises `ChronosNotConfigured` naming the file when it is missing |
| `ChronosSettings.GetUsername` | paasta_tools/chronos_tools.py:50-55 | `get_username` returns the `user` entry, or raises `ChronosNotConfigured` naming the file |
| `ChronosSettings.GetPassword` | paasta_tools/chronos_tools.py:57-62 | `get_password` returns the `password` entry, or raises `ChronosNotConfigured` naming the file |
| `ChronosSettings.GettersIndependent` | paasta_tools/chronos_tools.py:43-62 | all three getters succeed iff the `url`, `user` and `password` keys are all present |

## Left out

- `load_chronos_config` and `get_chronos_client`: file reading, JSON parsing, URL splitting and connecting to the scheduler are I/O.
- `read_chronos_jobs_for_service`, `load_chronos_job_config`, `list_job_names`, `get_chronos_jobs_for_cluster`: these read the service configuration tree from disk. A job is given to the model already loaded.
- The loading part of `create_complete_config`: the system configuration, `get_docker_url` and the volume list are inputs. `get_code_sha_from_dockerurl` and `get_config_hash` are function parameters, and their internals are not modelled.
- `isodate.parse_duration` and `isodate.parse_datetime`: their grammar is not modelled. They are oracles, and the text of the `ISO8601Error` is an oracle too. That a non-string raises `TypeError` in `isodate` is taken from the `isodate` library's behaviour; `isodate` is not part of paasta.
- `IsoDate`: on a string, the oracles either accept it or report an `ISO8601Error`, the only exception the source catches (:170, :206, :212). Any other exception `isodate` may raise on a string escapes `check_epsilon`, `check_schedule`, `validate` and `format_chronos_job_dict` uncaught, and is not modelled. An example is a `ValueError` from an out-of-range date such as `2015-02-30T00:00:00Z`. So `Schedule.CheckSchedule`, `Schedule.ScheduleCheck`, `Schedule.ScheduleMessages` and `JobConfig.CheckEpsilon` promise "raises only for a non-string" under that assumption only.
- The Python regular-expression engine in `lookup_chronos_jobs`: the compiled pattern's `search` is a predicate on names, and whether `re.compile` succeeds is a boolean input.
- `InstanceConfig` (`validate`, `check_cpus`, `check_mem`, `get_cpus`, `get_mem`, `get_cmd`, `get_desired_state`, `get_monitoring`) and `monitoring_tools.get_team_email_address`: their answers are the fields of `InstanceFacts`, held fixed. The model does not capture that they also read the configuration mapping and branch record.
- `ChronosJobConfig.__eq__`, `get_service_name` and `get_job_name`: these are field comparison and field reads, given by Dafny's datatype equality and field selection.
- Listed Chronos jobs carry only `name` and `disabled`. Their other fields pass through unchanged in the source and are not represented.
- `max_expected` is an optional integer. Non-integer values of it are not modelled.
- Python 2 `unicode` values: every text is a byte `str`. A `unicode` schedule, which makes `str.split` raise `TypeError`, is not distinguished.
- `PyValues.Show`: `str()` of a list in the retries message shows each item's `repr` only approximately. String items are always quoted with `'`, with no escapes. Python quotes a string containing `'` with `"`. It also shows an integer outside the 64-bit range (a `long`) with an `L` suffix, as in `[100000000000000000000L]`, which the model omits.
- Logging calls, including the payload logged by `format_chronos_job_dict`.
