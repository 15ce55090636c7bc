/** A Chronos job's configuration and its validation (`ChronosJobConfig`,
    paasta_tools/chronos_tools.py:118-302): defaulted accessors over the raw
    YAML mapping, the per-field checks, the `check(param)` dispatcher,
    `validate` (which collects every failing check's message) and
    `format_chronos_job_dict` (which builds the scheduler payload only from a
    configuration that validates). */
module JobConfig {
  import opened Strings
  import opened PyValues
  import opened Schedule

  /** What the shared instance-configuration code answers for this job:
      its own `validate()` messages, `check_cpus()`, `check_mem()`,
      `get_cpus()`, `get_mem()`, `get_cmd()`, the owner that the monitoring
      code derives, and `get_desired_state()` from the branch record. */
  datatype InstanceFacts = InstanceFacts(
    baseErrors: seq<string>,
    cpusCheck: Checked,
    memCheck: Checked,
    cpus: Value,
    mem: Value,
    cmd: Value,
    owner: Value,
    desiredState: string)

  /** A job: its service, its name, its raw configuration mapping, and the
      answers of the instance-configuration code. */
  datatype ChronosJobConfig = ChronosJobConfig(
    serviceName: string,
    jobName: string,
    config: map<string, Value>,
    instance: InstanceFacts)

  /** `config_dict.get(key, default)`. */
  function Get(job: ChronosJobConfig, key: string, default: Value): (v: Value)
    ensures key in job.config ==> v == job.config[key]
    ensures key !in job.config ==> v == default
  {
    if key in job.config then job.config[key] else default
  }

  /** `get_args`: the `args` entry, `None` when it is absent. */
  function Args(job: ChronosJobConfig): (v: Value)
    ensures "args" in job.config ==> v == job.config["args"]
    ensures "args" !in job.config ==> v == Null
  {
    Get(job, "args", Null)
  }

  /** `get_env`: the `env` entry, `[]` when it is absent. */
  function Env(job: ChronosJobConfig): (v: Value)
    ensures "env" in job.config ==> v == job.config["env"]
    ensures "env" !in job.config ==> v == List([])
  {
    Get(job, "env", List([]))
  }

  /** `get_constraints`: the `constraints` entry, `None` when it is absent. */
  function Constraints(job: ChronosJobConfig): (v: Value)
    ensures "constraints" in job.config ==> v == job.config["constraints"]
    ensures "constraints" !in job.config ==> v == Null
  {
    Get(job, "constraints", Null)
  }

  /** `get_epsilon`: the `epsilon` entry, `PT60S` when it is absent. */
  function Epsilon(job: ChronosJobConfig): (v: Value)
    ensures "epsilon" in job.config ==> v == job.config["epsilon"]
    ensures "epsilon" !in job.config ==> v == Str("PT60S")
  {
    Get(job, "epsilon", Str("PT60S"))
  }

  /** `get_retries`: the `retries` entry, 2 when it is absent. */
  function Retries(job: ChronosJobConfig): (v: Value)
    ensures "retries" in job.config ==> v == job.config["retries"]
    ensures "retries" !in job.config ==> v == Int(2)
  {
    Get(job, "retries", Int(2))
  }

  /** `get_disabled`: the `disabled` entry, `False` when it is absent. */
  function Disabled(job: ChronosJobConfig): (v: Value)
    ensures "disabled" in job.config ==> v == job.config["disabled"]
    ensures "disabled" !in job.config ==> v == Bool(false)
  {
    Get(job, "disabled", Bool(false))
  }

  /** `get_schedule`: the `schedule` entry, `None` when it is absent. */
  function ScheduleValue(job: ChronosJobConfig): (v: Value)
    ensures "schedule" in job.config ==> v == job.config["schedule"]
    ensures "schedule" !in job.config ==> v == Null
  {
    Get(job, "schedule", Null)
  }

  /** `get_schedule_time_zone`: the `schedule_time_zone` entry, `None` when it is absent. */
  function ScheduleTimeZone(job: ChronosJobConfig): (v: Value)
    ensures "schedule_time_zone" in job.config ==> v == job.config["schedule_time_zone"]
    ensures "schedule_time_zone" !in job.config ==> v == Null
  {
    Get(job, "schedule_time_zone", Null)
  }

  const Passed := Checked(true, "")

  /** `check_epsilon`: the epsilon (default `PT60S`) must parse as an ISO
      8601 duration; `isodate` raises `TypeError` on a value that is not a
      string. */
  function CheckEpsilon(job: ChronosJobConfig, iso: IsoDate): (r: Result<Checked>)
    ensures r.Ok? <==> Epsilon(job).Str?
    ensures r.Ok? ==> (r.value.passed <==> iso.isDuration(Epsilon(job).s))
    ensures r.Ok? && r.value.passed ==> r.value.msg == ""
    ensures r.Ok? && !r.value.passed ==>
      r.value.msg == "The specified epsilon value \"" + Epsilon(job).s + "\" does not conform to the ISO8601 format."
    ensures "epsilon" !in job.config ==> r.Ok? && (r.value.passed <==> iso.isDuration("PT60S"))
  {
    match Epsilon(job)
    case Str(s) =>
      if iso.isDuration(s) then Ok(Passed)
      else Ok(Checked(false, "The specified epsilon value \"" + s + "\" does not conform to the ISO8601 format."))
    case other => Raise(TypeError(other))
  }

  /** `check_retries`: passes when retries (default 2) is `None` or an
      instance of Python 2's `int`, so `True` passes and an integer too wide
      for a machine word fails. */
  function CheckRetries(job: ChronosJobConfig): (r: Checked)
    ensures r.passed <==> Retries(job).Null? || Retries(job).Bool?
                          || (Retries(job).Int? && PyIntMin <= Retries(job).n <= PyIntMax)
    ensures r.passed ==> r.msg == ""
    ensures !r.passed ==> r.msg == "The specified retries value \"" + Show(Retries(job)) + "\" is not a valid int."
    ensures "retries" !in job.config ==> r.passed
  {
    var retries := Retries(job);
    if retries.Null? || IsPyInt(retries) then Passed
    else Checked(false, "The specified retries value \"" + Show(retries) + "\" is not a valid int.")
  }

  /** `check_schedule_time_zone`: deliberately permissive; whatever the
      `schedule_time_zone` value, the check passes. The source tests the
      value against `None`, but both of its branches pass, so the test
      changes nothing. */
  function CheckScheduleTimeZone(job: ChronosJobConfig): (r: Checked)
    ensures r == Checked(true, "")
  {
    Passed
  }

  /** The names `check` dispatches to a checker. */
  const CheckedParams: set<string> := {"epsilon", "retries", "cpus", "mem", "schedule", "scheduleTimeZone"}
  /** The names `check` accepts without checking anything. */
  const UncheckedParams: set<string> := {"description", "command", "owner", "disabled"}

  function UnsupportedMessage(param: string): string
  {
    "Your Chronos config specifies \"" + param + "\", an unsupported parameter."
  }

  /** `check(param)`: run the checker registered for `param`, pass the
      supported names that have none, and fail any other name, naming it. */
  function Check(job: ChronosJobConfig, iso: IsoDate, param: string): (r: Result<Checked>)
    ensures param !in CheckedParams && param !in UncheckedParams ==>
      r == Ok(Checked(false, UnsupportedMessage(param)))
  {
    if param == "epsilon" then CheckEpsilon(job, iso)
    else if param == "retries" then Ok(CheckRetries(job))
    else if param == "cpus" then Ok(job.instance.cpusCheck)
    else if param == "mem" then Ok(job.instance.memCheck)
    else if param == "schedule" then ScheduleCheck(ScheduleValue(job), iso)
    else if param == "scheduleTimeZone" then Ok(CheckScheduleTimeZone(job))
    else if param in UncheckedParams then Ok(Passed)
    else Ok(Checked(false, UnsupportedMessage(param)))
  }

  /** What `check(param)` answers by name: any name outside the ten
      supported ones fails naming it, the names without a checker pass, and
      only `epsilon` and `schedule` can raise. */
  lemma CheckNames(job: ChronosJobConfig, iso: IsoDate, param: string)
    ensures var r := Check(job, iso, param);
      && (param !in CheckedParams && param !in UncheckedParams ==>
          r == Ok(Checked(false, UnsupportedMessage(param))))
      && (param in UncheckedParams || param == "scheduleTimeZone" ==> r == Ok(Checked(true, "")))
      && (r.Raise? ==> param in {"epsilon", "schedule"})
  {
    if param != "epsilon" && param != "schedule" {
      assert Check(job, iso, param).Ok?;
    }
  }

  /** `check(param)` hands each checked name to its checker. */
  lemma CheckDelegates(job: ChronosJobConfig, iso: IsoDate, param: string)
    ensures var r := Check(job, iso, param);
      && (param == "epsilon" ==> r == CheckEpsilon(job, iso))
      && (param == "retries" ==> r == Ok(CheckRetries(job)))
      && (param == "cpus" ==> r == Ok(job.instance.cpusCheck))
      && (param == "mem" ==> r == Ok(job.instance.memCheck))
      && (param == "schedule" ==> r == ScheduleCheck(ScheduleValue(job), iso))
  {
  }

  /** The names `validate` checks, in order. */
  const ValidatedParams: seq<string> := ["epsilon", "retries", "cpus", "mem", "schedule", "scheduleTimeZone"]

  /** The answers of `check` for each of `params`, in order. */
  function Outcomes(job: ChronosJobConfig, iso: IsoDate, params: seq<string>): (rs: seq<Result<Checked>>)
    ensures |rs| == |params|
  {
    seq(|params|, i requires 0 <= i < |params| => Check(job, iso, params[i]))
  }

  /** The six answers `validate` collects, checker by checker. */
  lemma ValidatedOutcomes(job: ChronosJobConfig, iso: IsoDate)
    ensures Outcomes(job, iso, ValidatedParams)
            == [CheckEpsilon(job, iso), Ok(CheckRetries(job)), Ok(job.instance.cpusCheck),
                Ok(job.instance.memCheck), ScheduleCheck(ScheduleValue(job), iso), Ok(Passed)]
  {
  }

  /** The messages of the failing checks, in order, or the first exception
      a check raised. */
  function Collect(rs: seq<Result<Checked>>): (r: Result<seq<string>>)
    ensures r.Ok? ==> |r.value| <= |rs|
    decreases |rs|
  {
    if rs == [] then Ok([])
    else
      match Collect(rs[..|rs| - 1])
      case Raise(e) => Raise(e)
      case Ok(msgs) =>
        match rs[|rs| - 1]
        case Raise(e) => Raise(e)
        case Ok(c) => Ok(if c.passed then msgs else msgs + [c.msg])
  }

  /** `validate()`'s answer: `(valid, messages)`. */
  datatype Verdict = Verdict(valid: bool, msgs: seq<string>)

  /** `validate()` as a function of the job: the instance-configuration
      messages followed by those of the failing checks. */
  function Validation(job: ChronosJobConfig, iso: IsoDate): (r: Result<Verdict>)
    ensures r.Ok? ==> (r.value.valid <==> r.value.msgs == [])
    ensures r.Ok? ==> job.instance.baseErrors <= r.value.msgs
  {
    match Collect(Outcomes(job, iso, ValidatedParams))
    case Raise(e) => Raise(e)
    case Ok(failed) =>
      var msgs := job.instance.baseErrors + failed;
      Ok(Verdict(|msgs| == 0, msgs))
  }

  /** Once a prefix of the answers holds an exception, the whole run raises
      the same. */
  lemma {:induction false} CollectRaiseSticks(rs: seq<Result<Checked>>, k: nat)
    requires k <= |rs|
    requires Collect(rs[..k]).Raise?
    ensures Collect(rs) == Collect(rs[..k])
    decreases |rs| - k
  {
    if k < |rs| {
      assert rs[..k + 1][..k] == rs[..k];
      CollectRaiseSticks(rs, k + 1);
    } else {
      assert rs[..k] == rs;
    }
  }

  /** The messages collected from a prefix start the messages collected
      from the whole. */
  lemma {:induction false} CollectPrefix(rs: seq<Result<Checked>>, k: nat)
    requires k <= |rs|
    requires Collect(rs).Ok?
    ensures Collect(rs[..k]).Ok?
    ensures Collect(rs[..k]).value <= Collect(rs).value
    decreases |rs| - k
  {
    if k < |rs| {
      CollectPrefix(rs, k + 1);
      assert rs[..k + 1][..k] == rs[..k];
    } else {
      assert rs[..k] == rs;
    }
  }

  /** The loop of `validate`: ask `check` about each name in turn, append
      the message of every failing answer to `msgs`, and let an exception
      escape. */
  method AppendFailures(check: string -> Result<Checked>, params: seq<string>, msgs: seq<string>)
    returns (r: Result<seq<string>>)
    ensures var rs := seq(|params|, i requires 0 <= i < |params| => check(params[i]));
      r == (match Collect(rs)
            case Raise(e) => Raise(e)
            case Ok(failed) => Ok(msgs + failed))
  {
    ghost var rs := seq(|params|, i requires 0 <= i < |params| => check(params[i]));
    ghost var failed: seq<string> := [];
    var errorMsgs := msgs;
    for i := 0 to |params|
      invariant Collect(rs[..i]) == Ok(failed)
      invariant errorMsgs == msgs + failed
    {
      var checked := check(params[i]);
      assert rs[..i + 1][..i] == rs[..i] && rs[i] == checked;
      if checked.Raise? {
        CollectRaiseSticks(rs, i + 1);
        return Raise(checked.error);
      }
      if !checked.value.passed {
        errorMsgs := errorMsgs + [checked.value.msg];
        failed := failed + [checked.value.msg];
      }
    }
    assert rs[..|params|] == rs;
    r := Ok(errorMsgs);
  }

  /** `validate`: the instance-configuration messages, then the message of
      every failing check, without stopping at a failure. */
  method Validate(job: ChronosJobConfig, iso: IsoDate) returns (r: Result<Verdict>)
    ensures r == Validation(job, iso)
  {
    var check := param => Check(job, iso, param);
    var collected := AppendFailures(check, ValidatedParams, job.instance.baseErrors);
    assert seq(|ValidatedParams|, i requires 0 <= i < |ValidatedParams| => check(ValidatedParams[i]))
           == Outcomes(job, iso, ValidatedParams);
    match collected
    case Raise(e) => r := Raise(e);
    case Ok(errorMsgs) => r := Ok(Verdict(|errorMsgs| == 0, errorMsgs));
  }

  /** When no check raises, collecting raises neither. */
  lemma {:induction false} CollectOk(rs: seq<Result<Checked>>)
    requires forall i :: 0 <= i < |rs| ==> rs[i].Ok?
    ensures Collect(rs).Ok?
    decreases |rs|
  {
    if rs != [] {
      var prefix := rs[..|rs| - 1];
      assert forall i :: 0 <= i < |prefix| ==> prefix[i] == rs[i];
      CollectOk(prefix);
    }
  }

  /** Collecting raises exactly when some answer is an exception; otherwise
      every failing answer contributes its message, and nothing else does. */
  lemma {:induction false} CollectReportsAll(rs: seq<Result<Checked>>)
    ensures Collect(rs).Ok? <==> forall i :: 0 <= i < |rs| ==> rs[i].Ok?
    ensures Collect(rs).Ok? ==>
      && (forall i :: 0 <= i < |rs| && !rs[i].value.passed ==> rs[i].value.msg in Collect(rs).value)
      && (forall m :: m in Collect(rs).value ==>
            exists i :: 0 <= i < |rs| && !rs[i].value.passed && rs[i].value.msg == m)
      && (Collect(rs).value == [] <==> forall i :: 0 <= i < |rs| ==> rs[i].value.passed)
    decreases |rs|
  {
    if rs != [] {
      var n := |rs| - 1;
      var prefix := rs[..n];
      CollectReportsAll(prefix);
      assert forall i :: 0 <= i < n ==> prefix[i] == rs[i];
      if Collect(prefix).Ok? && rs[n].Ok? {
        var msgs := Collect(prefix).value;
        var all := Collect(rs).value;
        assert all == if rs[n].value.passed then msgs else msgs + [rs[n].value.msg];
        forall m | m in all
          ensures exists i :: 0 <= i < |rs| && !rs[i].value.passed && rs[i].value.msg == m
        {
          if m in msgs {
            var i :| 0 <= i < |prefix| && !prefix[i].value.passed && prefix[i].value.msg == m;
            assert prefix[i] == rs[i];
          } else {
            assert rs[n].value.msg == m;
          }
        }
      }
    }
  }

  /** `validate` never stops early: it raises only when a check raises, is
      valid exactly when there are no instance-configuration messages and
      all six checks pass, and reports every failing check's message after
      the instance-configuration messages. */
  lemma ValidationReportsEveryFailure(job: ChronosJobConfig, iso: IsoDate)
    ensures Validation(job, iso).Ok? <==> forall p :: p in ValidatedParams ==> Check(job, iso, p).Ok?
    ensures Validation(job, iso).Ok? ==>
      var v := Validation(job, iso).value;
      && (v.valid <==> v.msgs == [])
      && (v.valid <==> job.instance.baseErrors == [] && forall p :: p in ValidatedParams ==> Check(job, iso, p).value.passed)
      && v.msgs[..|job.instance.baseErrors|] == job.instance.baseErrors
      && (forall p :: p in ValidatedParams && !Check(job, iso, p).value.passed ==> Check(job, iso, p).value.msg in v.msgs)
  {
    var rs := Outcomes(job, iso, ValidatedParams);
    CollectReportsAll(rs);
    assert forall p :: p in ValidatedParams ==> exists i :: 0 <= i < |ValidatedParams| && ValidatedParams[i] == p && rs[i] == Check(job, iso, p);
  }

  /** Two failing answers at the front give the first two messages. */
  lemma LeadingFailures(rs: seq<Result<Checked>>)
    requires |rs| >= 2 && Collect(rs).Ok?
    requires rs[0].Ok? && !rs[0].value.passed && rs[1].Ok? && !rs[1].value.passed
    ensures |Collect(rs).value| >= 2
    ensures Collect(rs).value[0] == rs[0].value.msg && Collect(rs).value[1] == rs[1].value.msg
  {
    var e, t := rs[0].value.msg, rs[1].value.msg;
    var r1, r2 := rs[..1], rs[..2];
    assert r1[..|r1| - 1] == [] && r1[|r1| - 1] == rs[0];
    assert Collect(r1) == Ok([] + [e]);
    var m1 := Collect(r1).value;
    assert m1 == [e];
    assert r2[..|r2| - 1] == r1 && r2[|r2| - 1] == rs[1];
    assert Collect(r2) == Ok(m1 + [t]);
    CollectPrefix(rs, 2);
  }

  /** A bad epsilon and bad retries together give both messages, epsilon's
      first: the retries check still runs after the epsilon check fails. */
  lemma BadEpsilonAndRetriesBothReported(job: ChronosJobConfig, iso: IsoDate)
    requires Epsilon(job).Str? && !iso.isDuration(Epsilon(job).s)
    requires !CheckRetries(job).passed
    requires ScheduleValue(job).Null? || ScheduleValue(job).Str?
    ensures Validation(job, iso).Ok?
    ensures !Validation(job, iso).value.valid
    ensures var msgs := Validation(job, iso).value.msgs;
            var b := |job.instance.baseErrors|;
            |msgs| >= b + 2 && msgs[b] == CheckEpsilon(job, iso).value.msg && msgs[b + 1] == CheckRetries(job).msg
  {
    var rs := Outcomes(job, iso, ValidatedParams);
    ValidatedOutcomes(job, iso);
    assert forall i :: 0 <= i < |rs| ==> rs[i].Ok?;
    CollectOk(rs);
    LeadingFailures(rs);
  }

  /** Keys of the configuration that are none of the ten names `check`
      supports do not affect `validate`: in particular a misspelt key such
      as `retriesx` is not reported, since `validate` only walks its six
      fixed names. (`cpus` and `mem` are excluded because the shared
      instance-configuration code reads them from the same mapping.) */
  lemma UnknownKeysIgnored(job: ChronosJobConfig, iso: IsoDate, key: string, v: Value)
    requires key !in CheckedParams && key !in UncheckedParams
    ensures Validation(job.(config := job.config[key := v]), iso) == Validation(job, iso)
  {
    var job' := job.(config := job.config[key := v]);
    assert Epsilon(job') == Epsilon(job) && Retries(job') == Retries(job);
    assert ScheduleValue(job') == ScheduleValue(job);
    assert Outcomes(job', iso, ValidatedParams) == Outcomes(job, iso, ValidatedParams);
  }

  /** What a valid job guarantees about the fields the payload carries:
      no instance-configuration message, cpus and mem checks passed,
      epsilon an ISO 8601 duration string, retries `None` or an `int`, and
      a schedule of three `/`-parts each of which validates. */
  lemma {:induction false} ValidJobFields(job: ChronosJobConfig, iso: IsoDate)
    requires Validation(job, iso) == Ok(Verdict(true, []))
    ensures job.instance.baseErrors == []
    ensures job.instance.cpusCheck.passed && job.instance.memCheck.passed
    ensures Epsilon(job).Str? && iso.isDuration(Epsilon(job).s)
    ensures Retries(job).Null? || IsPyInt(Retries(job))
    ensures ScheduleValue(job).Str?
    ensures var parts := Split(ScheduleValue(job).s, '/');
            && |parts| == 3
            && RepeatMatches(parts[0])
            && parts[1] != "" && iso.isDatetime(parts[1])
            && iso.isDuration(parts[2])
  {
    ValidationReportsEveryFailure(job, iso);
    assert "epsilon" in ValidatedParams && "retries" in ValidatedParams && "schedule" in ValidatedParams;
    assert "cpus" in ValidatedParams && "mem" in ValidatedParams;
    assert Check(job, iso, "schedule").value.passed;
    var sched := ScheduleValue(job);
    assert ScheduleMessages(sched, iso).Ok? && ScheduleMessages(sched, iso).value == [];
  }

  /** The container part of the payload. */
  datatype Container = Container(image: string, network: string, containerType: string, volumes: Value)

  /** The payload Chronos accepts for a Docker job. */
  datatype JobDict = JobDict(
    name: string,
    container: Container,
    environmentVariables: Value,
    mem: Value,
    cpus: Value,
    constraints: Value,
    command: Value,
    arguments: Value,
    epsilon: Value,
    retries: Value,
    async: bool,
    disabled: Value,
    owner: Value,
    schedule: Value,
    scheduleTimeZone: Value)

  /** The dict literal of `format_chronos_job_dict`. */
  function JobDictOf(job: ChronosJobConfig, dockerUrl: string, dockerVolumes: Value): (d: JobDict)
    ensures d.name == job.jobName && !d.async
    ensures d.container == Container(dockerUrl, "BRIDGE", "DOCKER", dockerVolumes)
    ensures "epsilon" !in job.config ==> d.epsilon == Str("PT60S")
    ensures "retries" !in job.config ==> d.retries == Int(2)
    ensures "disabled" !in job.config ==> d.disabled == Bool(false)
    ensures "env" !in job.config ==> d.environmentVariables == List([])
  {
    JobDict(
      name := job.jobName,
      container := Container(image := dockerUrl, network := "BRIDGE", containerType := "DOCKER", volumes := dockerVolumes),
      environmentVariables := Env(job),
      mem := job.instance.mem,
      cpus := job.instance.cpus,
      constraints := Constraints(job),
      command := job.instance.cmd,
      arguments := Args(job),
      epsilon := Epsilon(job),
      retries := Retries(job),
      async := false,
      disabled := Disabled(job),
      owner := job.instance.owner,
      schedule := ScheduleValue(job),
      scheduleTimeZone := ScheduleTimeZone(job))
  }

  /** `format_chronos_job_dict`: validate first; on failure raise
      `InvalidChronosConfigError` carrying the messages joined by newlines
      and build nothing; otherwise build the payload. */
  method FormatJobDict(job: ChronosJobConfig, iso: IsoDate, dockerUrl: string, dockerVolumes: Value)
    returns (r: Result<JobDict>)
    ensures Validation(job, iso).Raise? ==> r == Raise(Validation(job, iso).error)
    ensures Validation(job, iso).Ok? && !Validation(job, iso).value.valid ==>
      r == Raise(InvalidChronosConfigError(Join("\n", Validation(job, iso).value.msgs)))
    ensures r.Ok? <==> Validation(job, iso) == Ok(Verdict(true, []))
    ensures r.Ok? ==>
      var d := r.value;
      && d.name == job.jobName
      && d.container == Container(dockerUrl, "BRIDGE", "DOCKER", dockerVolumes)
      && d.async == false
      && d.epsilon == (if "epsilon" in job.config then job.config["epsilon"] else Str("PT60S"))
      && d.retries == (if "retries" in job.config then job.config["retries"] else Int(2))
      && d.disabled == (if "disabled" in job.config then job.config["disabled"] else Bool(false))
      && d.environmentVariables == (if "env" in job.config then job.config["env"] else List([]))
      && d.epsilon.Str? && iso.isDuration(d.epsilon.s)
      && d.schedule.Str? && |Split(d.schedule.s, '/')| == 3
      && d.cpus == job.instance.cpus && d.mem == job.instance.mem
      && d.command == job.instance.cmd && d.owner == job.instance.owner
    ensures r.Ok? ==> r.value == JobDictOf(job, dockerUrl, dockerVolumes)
  {
    var verdict := Validate(job, iso);
    if verdict.Raise? {
      return Raise(verdict.error);
    }
    if !verdict.value.valid {
      return Raise(InvalidChronosConfigError(Join("\n", verdict.value.msgs)));
    }
    ValidJobFields(job, iso);
    r := Ok(JobDictOf(job, dockerUrl, dockerVolumes));
  }
}
