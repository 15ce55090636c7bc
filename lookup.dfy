/** Querying the jobs Chronos reports: `lookup_chronos_jobs`
    (paasta_tools/chronos_tools.py:371-398). The listing comes from the
    scheduler client and the pattern is a Python regular expression; here
    the listing is an input, `compiles` says whether `re.compile` accepts
    the pattern and `search` is the compiled pattern's `search` on a name. */
module Lookup {
  import opened Strings
  import opened PyValues

  /** A job as the scheduler lists it: its name and its disabled flag. */
  datatype ListedJob = ListedJob(name: string, disabled: bool)

  /** Whether a listed job is kept: its name matches, and it is enabled
      unless disabled jobs are asked for. */
  predicate Wanted(job: ListedJob, search: string -> bool, includeDisabled: bool)
  {
    search(job.name) && (includeDisabled || !job.disabled)
  }

  /** The kept jobs, in listing order. */
  function Kept(jobs: seq<ListedJob>, search: string -> bool, includeDisabled: bool): (kept: seq<ListedJob>)
    ensures |kept| <= |jobs|
    ensures forall j :: j in kept ==> Wanted(j, search, includeDisabled)
    decreases |jobs|
  {
    if jobs == [] then []
    else
      var front := Kept(jobs[..|jobs| - 1], search, includeDisabled);
      var last := jobs[|jobs| - 1];
      if Wanted(last, search, includeDisabled) then front + [last] else front
  }

  /** The cardinality guard: `max_expected` is truthy (neither `None` nor
      0) and the kept jobs outnumber it. A negative bound is truthy and is
      outnumbered by every count, so it always trips. */
  function TooMany(maxExpected: Option<int>, count: nat): (tooMany: bool)
    ensures maxExpected == None || maxExpected == Some(0) ==> !tooMany
    ensures maxExpected.Some? && maxExpected.value != 0 ==> (tooMany <==> count > maxExpected.value)
    ensures maxExpected.Some? && maxExpected.value < 0 ==> tooMany
  {
    maxExpected.Some? && maxExpected.value != 0 && count > maxExpected.value
  }

  function Names(jobs: seq<ListedJob>): (names: seq<string>)
    ensures |names| == |jobs|
    ensures forall i :: 0 <= i < |jobs| ==> names[i] == jobs[i].name
  {
    seq(|jobs|, i requires 0 <= i < |jobs| => jobs[i].name)
  }

  function InvalidPatternMessage(pattern: string): string
  {
    "Invalid regex pattern '" + pattern + "'"
  }

  function TooManyMessage(pattern: string, maxExpected: int, kept: seq<ListedJob>): string
  {
    "Found " + Decimal(|kept|) + " jobs for pattern '" + pattern + "', but max_expected is set to "
      + Decimal(maxExpected) + " (ids: " + Join(", ", Names(kept)) + ")"
  }

  /** `lookup_chronos_jobs`: compile the pattern, keep the matching jobs
      (enabled ones only, unless asked otherwise), and refuse a result
      larger than `max_expected`, naming every kept job. */
  method LookupChronosJobs(pattern: string, compiles: bool, search: string -> bool,
                           jobs: seq<ListedJob>, maxExpected: Option<int>, includeDisabled: bool)
    returns (r: Result<seq<ListedJob>>)
    ensures !compiles ==> r == Raise(ValueError(InvalidPatternMessage(pattern)))
    ensures compiles && TooMany(maxExpected, |Kept(jobs, search, includeDisabled)|) ==>
      r == Raise(ValueError(TooManyMessage(pattern, maxExpected.value, Kept(jobs, search, includeDisabled))))
    ensures compiles && !TooMany(maxExpected, |Kept(jobs, search, includeDisabled)|) ==>
      r == Ok(Kept(jobs, search, includeDisabled))
  {
    if !compiles {
      return Raise(ValueError(InvalidPatternMessage(pattern)));
    }
    var matchingJobs: seq<ListedJob> := [];
    for i := 0 to |jobs|
      invariant matchingJobs == Kept(jobs[..i], search, includeDisabled)
    {
      var job := jobs[i];
      assert jobs[..i + 1][..i] == jobs[..i];
      if search(job.name) {
        if job.disabled && !includeDisabled {
          continue;
        } else {
          matchingJobs := matchingJobs + [job];
        }
      }
    }
    assert jobs[..|jobs|] == jobs;
    if maxExpected.Some? && maxExpected.value != 0 && |matchingJobs| > maxExpected.value {
      return Raise(ValueError(TooManyMessage(pattern, maxExpected.value, matchingJobs)));
    }
    r := Ok(matchingJobs);
  }

  /** A job is kept exactly when it is listed and wanted. */
  lemma {:induction false} KeptMembership(jobs: seq<ListedJob>, search: string -> bool, includeDisabled: bool)
    ensures forall j :: j in Kept(jobs, search, includeDisabled) <==> j in jobs && Wanted(j, search, includeDisabled)
    decreases |jobs|
  {
    if jobs != [] {
      var n := |jobs| - 1;
      KeptMembership(jobs[..n], search, includeDisabled);
      assert jobs == jobs[..n] + [jobs[n]];
    }
  }

  /** `a` is `b` with some elements left out, order kept. */
  predicate IsSubsequence<T(==)>(a: seq<T>, b: seq<T>)
    decreases |b|
  {
    if a == [] then true
    else if b == [] then false
    else if a[|a| - 1] == b[|b| - 1] then IsSubsequence(a[..|a| - 1], b[..|b| - 1])
    else IsSubsequence(a, b[..|b| - 1])
  }

  /** Every sequence is a subsequence of itself extended at the end. */
  lemma {:induction false} SubsequenceOfExtension<T>(a: seq<T>, b: seq<T>, x: T)
    requires IsSubsequence(a, b)
    ensures IsSubsequence(a, b + [x])
    decreases |b|, 1
  {
    var bx := b + [x];
    assert bx[..|bx| - 1] == b;
    if a != [] && a[|a| - 1] == x {
      SubsequenceDropLast(a, b);
    }
  }

  /** Dropping the last element keeps a subsequence a subsequence. */
  lemma {:induction false} SubsequenceDropLast<T>(a: seq<T>, b: seq<T>)
    requires a != [] && IsSubsequence(a, b)
    ensures IsSubsequence(a[..|a| - 1], b)
    decreases |b|, 0
  {
    var a' := a[..|a| - 1];
    if b != [] {
      var b' := b[..|b| - 1];
      if a[|a| - 1] == b[|b| - 1] {
        SubsequenceOfExtension(a', b', b[|b| - 1]);
        assert b' + [b[|b| - 1]] == b;
      } else {
        SubsequenceDropLast(a, b');
        SubsequenceOfExtension(a', b', b[|b| - 1]);
        assert b' + [b[|b| - 1]] == b;
      }
    }
  }

  /** The result keeps the listing's order: it is a subsequence of it. */
  lemma {:induction false} KeptIsSubsequence(jobs: seq<ListedJob>, search: string -> bool, includeDisabled: bool)
    ensures IsSubsequence(Kept(jobs, search, includeDisabled), jobs)
    decreases |jobs|
  {
    if jobs != [] {
      var n := |jobs| - 1;
      var front := Kept(jobs[..n], search, includeDisabled);
      KeptIsSubsequence(jobs[..n], search, includeDisabled);
      assert jobs[..n] + [jobs[n]] == jobs;
      if Wanted(jobs[n], search, includeDisabled) {
        var k := front + [jobs[n]];
        assert k[..|k| - 1] == front;
      } else {
        SubsequenceOfExtension(front, jobs[..n], jobs[n]);
      }
    }
  }

  /** Asking for disabled jobs too only adds jobs: the enabled-only result
      is a subsequence of the other. */
  lemma {:induction false} IncludeDisabledAddsJobs(jobs: seq<ListedJob>, search: string -> bool)
    ensures IsSubsequence(Kept(jobs, search, false), Kept(jobs, search, true))
    decreases |jobs|
  {
    if jobs != [] {
      var n := |jobs| - 1;
      var f0, f1 := Kept(jobs[..n], search, false), Kept(jobs[..n], search, true);
      IncludeDisabledAddsJobs(jobs[..n], search);
      var last := jobs[n];
      if Wanted(last, search, false) {
        var k0, k1 := f0 + [last], f1 + [last];
        assert k0[..|k0| - 1] == f0 && k1[..|k1| - 1] == f1;
      } else if Wanted(last, search, true) {
        SubsequenceOfExtension(f0, f1, last);
      }
    }
  }

  /** The pattern `^foo ` over a listing of `foo bar` (enabled), `foo baz`
      (disabled) and `qux` (enabled). */
  lemma FooExample()
    ensures var jobs := [ListedJob("foo bar", false), ListedJob("foo baz", true), ListedJob("qux", false)];
            var search := (name: string) => |name| >= 4 && name[..4] == "foo ";
            && Kept(jobs, search, false) == [ListedJob("foo bar", false)]
            && Kept(jobs, search, true) == [ListedJob("foo bar", false), ListedJob("foo baz", true)]
            && TooMany(Some(1), |Kept(jobs, search, true)|)
            && !TooMany(Some(0), |Kept(jobs, search, true)|)
            && !TooMany(None, |Kept(jobs, search, true)|)
  {
    var jobs := [ListedJob("foo bar", false), ListedJob("foo baz", true), ListedJob("qux", false)];
    var search := (name: string) => |name| >= 4 && name[..4] == "foo ";
    assert search("foo bar") && search("foo baz") && !search("qux");
    var j1, j2 := jobs[..1], jobs[..2];
    assert j1[..0] == [] && j1[0] == jobs[0];
    assert j2[..1] == j1 && j2[1] == jobs[1];
    assert jobs[..2] == j2 && jobs[2].name == "qux";
    assert Kept(j1, search, false) == [jobs[0]] && Kept(j1, search, true) == [jobs[0]];
    assert Kept(j2, search, false) == [jobs[0]];
    assert Kept(j2, search, true) == [jobs[0], jobs[1]];
  }
}
