/** Job identity and revisions: `get_job_id` (paasta_tools/chronos_tools.py:83-87)
    and the tail of `create_complete_config` (:340-368), which renames the
    payload to a per-revision job name and lets the desired run state decide
    `disabled`. Chronos forgets a job's history when the job is updated in
    place, so each revision of the configuration gets a job name of its own. */
module Identity {
  import opened PyValues
  import opened Schedule
  import opened JobConfig

  /** The separator inside job names (Chronos does not allow periods). */
  const Spacer: string := " "

  /** Python truthiness of the optional tag: `None` and `""` are false. */
  predicate TagIsTruthy(tag: Option<string>)
  {
    tag.Some? && tag.value != ""
  }

  /** `get_job_id(service, instance, tag=None)`. */
  function JobId(service: string, instance: string, tag: Option<string>): (id: string)
    ensures TagIsTruthy(tag) ==> id == service + " " + instance + " " + tag.value
    ensures !TagIsTruthy(tag) ==> id == service + " " + instance
  {
    var output := service + Spacer + instance;
    if TagIsTruthy(tag) then service + Spacer + instance + Spacer + tag.value else output
  }

  /** The revision tag: the code identifier and the configuration hash. */
  function RevisionTag(codeSha: string, configHash: string): (tag: string)
    ensures codeSha + " " <= tag && tag[|codeSha| + 1..] == configHash
  {
    codeSha + Spacer + configHash
  }

  /** Text before a space that the first part does not contain is that part. */
  lemma {:induction false} SplitAtSpace(a: string, b: string, c: string, d: string)
    requires ' ' !in a && ' ' !in c
    requires a + " " + b == c + " " + d
    ensures a == c && b == d
  {
    var x := a + " " + b;
    assert forall i :: 0 <= i < |a| ==> x[i] == a[i] && a[i] != ' ';
    assert forall i :: 0 <= i < |c| ==> x[i] == c[i] && c[i] != ' ';
    assert x[|a|] == ' ' && x[|c|] == ' ';
    assert |a| == |c|;
    assert a == x[..|a|] && c == x[..|c|];
    assert b == x[|a| + 1..] && d == x[|c| + 1..];
  }

  /** Distinct (code identifier, configuration hash) pairs give distinct
      tags as long as the code identifier holds no space. */
  lemma RevisionTagInjective(sha1: string, hash1: string, sha2: string, hash2: string)
    requires ' ' !in sha1 && ' ' !in sha2
    ensures RevisionTag(sha1, hash1) == RevisionTag(sha2, hash2) <==> sha1 == sha2 && hash1 == hash2
  {
    if RevisionTag(sha1, hash1) == RevisionTag(sha2, hash2) {
      SplitAtSpace(sha1, hash1, sha2, hash2);
    }
  }

  /** With a space inside the code identifier two different pairs can
      share a tag, which is why the injectivity above needs its guard. */
  lemma RevisionTagNeedsSpaceFreeSha()
    ensures RevisionTag("a b", "c") == RevisionTag("a", "b c")
  {
  }

  /** A tagged job name determines its service, its instance and its tag
      when service and instance hold no space. */
  lemma JobIdInjective(service1: string, instance1: string, tag1: string,
                       service2: string, instance2: string, tag2: string)
    requires ' ' !in service1 && ' ' !in instance1 && ' ' !in service2 && ' ' !in instance2
    requires tag1 != "" && tag2 != ""
    ensures JobId(service1, instance1, Some(tag1)) == JobId(service2, instance2, Some(tag2))
            <==> service1 == service2 && instance1 == instance2 && tag1 == tag2
  {
    if JobId(service1, instance1, Some(tag1)) == JobId(service2, instance2, Some(tag2)) {
      assert service1 + " " + instance1 + " " + tag1 == service1 + " " + (instance1 + " " + tag1);
      assert service2 + " " + instance2 + " " + tag2 == service2 + " " + (instance2 + " " + tag2);
      SplitAtSpace(service1, instance1 + " " + tag1, service2, instance2 + " " + tag2);
      SplitAtSpace(instance1, tag1, instance2, tag2);
    }
  }

  /** The tagged name starts with the untagged one, so every revision of a
      job shares the `service instance` prefix. */
  lemma JobIdExtendsBase(service: string, instance: string, tag: Option<string>)
    ensures JobId(service, instance, None) <= JobId(service, instance, tag)
  {
    assert service + " " + instance + " " + (if tag.Some? then tag.value else "")
           == (service + " " + instance) + (" " + (if tag.Some? then tag.value else ""));
  }

  /** Lines 354-366 of `create_complete_config`: rename the payload to the
      revision's job name, then force `disabled` from the desired state. */
  method StampRevision(d: JobDict, service: string, jobName: string, codeSha: string,
                       configHash: string, desiredState: string) returns (r: JobDict)
    ensures r.name == JobId(service, jobName, Some(RevisionTag(codeSha, configHash)))
    ensures desiredState == "start" ==> r.disabled == Bool(false)
    ensures desiredState == "stop" ==> r.disabled == Bool(true)
    ensures desiredState != "start" && desiredState != "stop" ==> r.disabled == d.disabled
    ensures r.(name := d.name, disabled := d.disabled) == d
  {
    var tag := codeSha + Spacer + configHash;
    var fullId := JobId(service, jobName, Some(tag));
    r := d.(name := fullId);
    if desiredState == "start" {
      r := r.(disabled := Bool(false));
    } else if desiredState == "stop" {
      r := r.(disabled := Bool(true));
    }
  }

  /** `create_complete_config` after its inputs are loaded: format the
      payload, hash it while it still carries the plain job name, then stamp
      the revision. `codeShaOf` and `configHashOf` stand for
      `get_code_sha_from_dockerurl` and `get_config_hash`. */
  method CreateCompleteConfig(job: ChronosJobConfig, iso: IsoDate, dockerUrl: string, dockerVolumes: Value,
                              codeShaOf: string -> string, configHashOf: JobDict -> string)
    returns (r: Result<JobDict>)
    ensures r.Ok? <==> Validation(job, iso) == Ok(Verdict(true, []))
    ensures Validation(job, iso).Raise? ==> r == Raise(Validation(job, iso).error)
    ensures Validation(job, iso).Ok? && !Validation(job, iso).value.valid ==>
      r == Raise(InvalidChronosConfigError(Strings.Join("\n", Validation(job, iso).value.msgs)))
    ensures r.Ok? ==>
      var formatted := JobDictOf(job, dockerUrl, dockerVolumes);
      var state := job.instance.desiredState;
      && formatted.name == job.jobName
      && r.value.name == JobId(job.serviceName, job.jobName,
                               Some(RevisionTag(codeShaOf(dockerUrl), configHashOf(formatted))))
      && r.value.disabled == (if state == "start" then Bool(false)
                              else if state == "stop" then Bool(true)
                              else Disabled(job))
      && r.value.(name := formatted.name, disabled := formatted.disabled) == formatted
  {
    var completeConfig := FormatJobDict(job, iso, dockerUrl, dockerVolumes);
    if completeConfig.Raise? {
      return completeConfig;
    }
    var codeSha := codeShaOf(dockerUrl);
    var configHash := configHashOf(completeConfig.value);
    var stamped := StampRevision(completeConfig.value, job.serviceName, job.jobName,
                                 codeSha, configHash, job.instance.desiredState);
    r := Ok(stamped);
  }

  /** Building twice from the same inputs gives the same job name, and a
      different configuration hash gives a different one, whatever spaces
      the service, job name or code identifier contain: both names start
      with the same `service job code_sha ` prefix. */
  lemma RevisionNamesDifferByHash(service: string, jobName: string, codeSha: string,
                                  hash1: string, hash2: string)
    ensures (JobId(service, jobName, Some(RevisionTag(codeSha, hash1)))
             == JobId(service, jobName, Some(RevisionTag(codeSha, hash2)))) <==> hash1 == hash2
  {
    var prefix := service + " " + jobName + " " + codeSha + " ";
    RevisionNameSplits(service, jobName, codeSha, hash1);
    RevisionNameSplits(service, jobName, codeSha, hash2);
    assert (prefix + hash1)[|prefix|..] == hash1 && (prefix + hash2)[|prefix|..] == hash2;
  }

  /** A revision's job name is a fixed prefix followed by the hash. */
  lemma RevisionNameSplits(service: string, jobName: string, codeSha: string, hash: string)
    ensures JobId(service, jobName, Some(RevisionTag(codeSha, hash)))
            == service + " " + jobName + " " + codeSha + " " + hash
  {
    var tag := RevisionTag(codeSha, hash);
    assert tag == codeSha + " " + hash;
    assert JobId(service, jobName, Some(tag)) == service + " " + jobName + " " + tag;
  }
}
