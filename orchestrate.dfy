/**
 * `set_testrail_results`: submit every pass, then every failure, then every
 * skip, recording each `TestRail::APIError` in `bad_results` under the
 * test's name and carrying on. Any other exception escapes the loop and
 * ends the run.
 */
module Orchestrate {
  import opened Wrappers
  import opened Faults
  import opened Junit
  import opened Submit

  /**
   * The server's answer to one post: accepted, refused (the client raises
   * `TestRail::APIError`), or some other exception from the HTTP client.
   */
  datatype Response = Accepted | ApiError(message: string) | Raised(message: string)

  /** The server answers a post knowing every post this client sent before it. */
  type Server = (seq<Post>, Post) -> Response

  /** The `TestRail::APIClient`: it only sends posts; `posted` is everything it has sent. */
  class TestRailClient {
    var posted: seq<Post>
    const server: Server

    constructor (server: Server)
      ensures this.server == server && posted == []
    {
      this.server := server;
      posted := [];
    }

    /** `api.send_post(endpoint, payload)` */
    method SendPost(p: Post) returns (r: Response)
      modifies this
      ensures posted == old(posted) + [p]
      ensures r == server(old(posted), p)
    {
      r := server(posted, p);
      posted := posted + [p];
    }
  }

  /**
   * `submit_result`: build the request and, if nothing raised on the way,
   * post it. Failure is an exception raised before the post was sent.
   */
  method SubmitResult(api: TestRailClient, status: int, t: TestCase, junitFile: string, testrunId: string,
                      fs: FileSystem)
    returns (r: Result<Response, Fault>)
    modifies api
    ensures match SubmitRequest(status, t, junitFile, testrunId, fs)
      case Failure(e) => r == Failure(e) && api.posted == old(api.posted)
      case Success(p) => r == Success(api.server(old(api.posted), p)) && api.posted == old(api.posted) + [p]
  {
    var req := SubmitRequest(status, t, junitFile, testrunId, fs);
    match req
    case Failure(e) =>
      r := Failure(e);
    case Success(p) =>
      var answer := api.SendPost(p);
      r := Success(answer);
  }

  // ---------------------------------------------------------------------
  // The run as a function of its inputs
  // ---------------------------------------------------------------------

  /** One call of `submit_result`: the record and the status it is submitted with. */
  datatype Job = Job(status: int, test: TestCase)

  /**
   * Everything one run needs besides the records: how `submit_result` builds
   * the request for a job, the server, and what the client sent before the run.
   */
  datatype Context = Context(build: Job -> Result<Post, Fault>, server: Server, earlier: seq<Post>)

  /** What the run has done so far: the posts sent, the server's answers, `bad_results`, and an escaped exception. */
  datatype RunState = RunState(sent: seq<Post>, answers: seq<Response>, bad: map<string, string>,
                               fault: Option<Fault>)

  const Start := RunState([], [], map[], None)

  /** The records of one group paired with the group's status. */
  function Tagged(recs: seq<TestCase>, status: int): (jobs: seq<Job>)
    ensures |jobs| == |recs|
    ensures forall i :: 0 <= i < |recs| ==> jobs[i] == Job(status, recs[i])
    decreases |recs|
  {
    if |recs| == 0 then [] else [Job(status, recs[0])] + Tagged(recs[1..], status)
  }

  /** The three loops in order: passes with PASSED, failures with FAILED, skips with BLOCKED. */
  function Jobs(results: JunitResults): (all: seq<Job>)
    ensures |all| == |results.passes| + |results.failures| + |results.skips|
    ensures var P, F := |results.passes|, |results.failures|;
      && (forall k :: 0 <= k < P ==> all[k] == Job(PASSED, results.passes[k]))
      && (forall k :: 0 <= k < F ==> all[P + k] == Job(FAILED, results.failures[k]))
      && (forall k :: 0 <= k < |results.skips| ==> all[P + F + k] == Job(BLOCKED, results.skips[k]))
  {
    Tagged(results.passes, PASSED) + Tagged(results.failures, FAILED) + Tagged(results.skips, BLOCKED)
  }

  /** How `submit_result` builds requests from one JUnit file, test run and file system. */
  function Builder(junitFile: string, testrunId: string, fs: FileSystem): Job -> Result<Post, Fault> {
    (job: Job) => SubmitRequest(job.status, job.test, junitFile, testrunId, fs)
  }

  /**
   * `ctx` builds every job's request as `submit_result` does for these
   * inputs. The fact is only used where a request is actually built.
   */
  ghost predicate BuildsFor(ctx: Context, junitFile: string, testrunId: string, fs: FileSystem) {
    forall job: Job {:trigger SubmitRequest(job.status, job.test, junitFile, testrunId, fs)} ::
      ctx.build(job) == SubmitRequest(job.status, job.test, junitFile, testrunId, fs)
  }

  lemma BuilderBuildsFor(junitFile: string, testrunId: string, fs: FileSystem, server: Server, earlier: seq<Post>)
    ensures BuildsFor(Context(Builder(junitFile, testrunId, fs), server, earlier), junitFile, testrunId, fs)
  {
  }

  /** One iteration of a loop, with its `rescue TestRail::APIError`. */
  function Step(ctx: Context, st: RunState, job: Job): RunState {
    if st.fault.Some? then st
    else match ctx.build(job)
      case Failure(e) => st.(fault := Some(e))
      case Success(p) =>
        var answer := ctx.server(ctx.earlier + st.sent, p);
        var st' := st.(sent := st.sent + [p], answers := st.answers + [answer]);
        match answer
        case Accepted => st'
        case ApiError(m) => st'.(bad := st.bad[job.test.name := m])
        case Raised(m) => st'.(fault := Some(ClientError(m)))
  }

  function RunJobs(ctx: Context, jobs: seq<Job>): RunState
    decreases |jobs|
  {
    if |jobs| == 0 then Start
    else Step(ctx, RunJobs(ctx, jobs[..|jobs| - 1]), jobs[|jobs| - 1])
  }

  /** The value `set_testrail_results` returns, or the exception it raises. */
  function Outcome(st: RunState): Result<map<string, string>, Fault> {
    match st.fault
    case Some(e) => Failure(e)
    case None => Success(st.bad)
  }

  // ---------------------------------------------------------------------
  // The loops
  // ---------------------------------------------------------------------

  lemma PrefixSnoc<T>(s: seq<T>, n: nat)
    requires n < |s|
    ensures s[..n + 1] == s[..n] + [s[n]]
  {
  }

  /** Running one more job is one more step. */
  lemma RunJobsSnoc(ctx: Context, done: seq<Job>, job: Job)
    ensures RunJobs(ctx, done + [job]) == Step(ctx, RunJobs(ctx, done), job)
  {
    assert (done + [job])[..|done|] == done;
  }

  /**
   * One `begin submit_result(...) rescue TestRail::APIError => e` block:
   * an APIError is recorded under the test's name; any other exception
   * escapes.
   */
  method SubmitRescuing(api: TestRailClient, job: Job, junitFile: string, testrunId: string, fs: FileSystem,
                        badResults: map<string, string>, ghost ctx: Context, ghost done: seq<Job>)
    returns (bad: map<string, string>, escaped: Option<Fault>)
    requires BuildsFor(ctx, junitFile, testrunId, fs) && ctx.server == api.server
    requires RunJobs(ctx, done).fault.None? && RunJobs(ctx, done).bad == badResults
    requires api.posted == ctx.earlier + RunJobs(ctx, done).sent
    modifies api
    ensures var st := RunJobs(ctx, done + [job]);
      && api.posted == ctx.earlier + st.sent
      && escaped == st.fault
      && (escaped.None? ==> bad == st.bad)
  {
    RunJobsSnoc(ctx, done, job);
    var r := SubmitResult(api, job.status, job.test, junitFile, testrunId, fs);
    bad, escaped := badResults, None;
    match r {
      case Failure(e) =>
        escaped := Some(e);
      case Success(Raised(m)) =>
        escaped := Some(ClientError(m));
      case Success(ApiError(m)) =>
        bad := badResults[job.test.name := m];
      case Success(Accepted) =>
    }
  }

  /**
   * One of the three `results[group].each do |junit_result| ... end` loops:
   * submit every record with the group's status, in order, until an
   * exception other than APIError escapes. `all` is every job of the run and
   * `done` the jobs before this group.
   */
  method SubmitGroup(api: TestRailClient, recs: seq<TestCase>, status: int, junitFile: string, testrunId: string,
                     fs: FileSystem, badResults: map<string, string>,
                     ghost ctx: Context, ghost all: seq<Job>, ghost done: seq<Job>)
    returns (bad: map<string, string>, escaped: Option<Fault>, ghost done': seq<Job>)
    requires BuildsFor(ctx, junitFile, testrunId, fs) && ctx.server == api.server
    requires |done| + |recs| <= |all| && done == all[..|done|]
    requires forall k :: 0 <= k < |recs| ==> all[|done| + k] == Job(status, recs[k])
    requires RunJobs(ctx, done).fault.None? && RunJobs(ctx, done).bad == badResults
    requires api.posted == ctx.earlier + RunJobs(ctx, done).sent
    modifies api
    ensures |done'| <= |done| + |recs| && done' == all[..|done'|]
    ensures api.posted == ctx.earlier + RunJobs(ctx, done').sent
    ensures escaped == RunJobs(ctx, done').fault
    ensures escaped.None? ==> |done'| == |done| + |recs| && bad == RunJobs(ctx, done').bad
  {
    bad, escaped, done' := badResults, None, done;
    var i := 0;
    while i < |recs|
      invariant 0 <= i <= |recs| && |done'| == |done| + i && done' == all[..|done'|]
      invariant escaped.None? && RunJobs(ctx, done').fault.None? && RunJobs(ctx, done').bad == bad
      invariant api.posted == ctx.earlier + RunJobs(ctx, done').sent
    {
      var job := Job(status, recs[i]);
      bad, escaped := SubmitRescuing(api, job, junitFile, testrunId, fs, bad, ctx, done');
      PrefixSnoc(all, |done'|);
      done' := done' + [job];
      if escaped.Some? {
        return;
      }
      i := i + 1;
    }
  }

  /** `set_testrail_results(results, junit_file, testrun_id)` with an already connected client. */
  method SetTestrailResults(api: TestRailClient, results: JunitResults, junitFile: string, testrunId: string,
                            fs: FileSystem, ghost ctx: Context)
    returns (outcome: Result<map<string, string>, Fault>)
    requires BuildsFor(ctx, junitFile, testrunId, fs) && ctx.server == api.server && ctx.earlier == api.posted
    modifies api
    ensures var st := RunJobs(ctx, Jobs(results));
      outcome == Outcome(st) && api.posted == old(api.posted) + st.sent
  {
    ghost var all := Jobs(results);
    ghost var done: seq<Job> := [];
    var badResults: map<string, string> := map[];
    var escaped: Option<Fault>;

    // passes
    badResults, escaped, done := SubmitGroup(api, results.passes, PASSED, junitFile, testrunId, fs,
                                             badResults, ctx, all, done);
    if escaped.Some? {
      FaultIsFinal(ctx, all, done);
      return Failure(escaped.value);
    }

    // Failures
    badResults, escaped, done := SubmitGroup(api, results.failures, FAILED, junitFile, testrunId, fs,
                                             badResults, ctx, all, done);
    if escaped.Some? {
      FaultIsFinal(ctx, all, done);
      return Failure(escaped.value);
    }

    // Skips
    badResults, escaped, done := SubmitGroup(api, results.skips, BLOCKED, junitFile, testrunId, fs,
                                             badResults, ctx, all, done);
    if escaped.Some? {
      FaultIsFinal(ctx, all, done);
      return Failure(escaped.value);
    }

    assert done == all;
    return Success(badResults);
  }

  // ---------------------------------------------------------------------
  // Lemmas
  // ---------------------------------------------------------------------

  /** Once an exception has escaped, later records change nothing. */
  lemma {:induction false} FaultAbsorbs(ctx: Context, a: seq<Job>, b: seq<Job>)
    requires RunJobs(ctx, a).fault.Some?
    ensures RunJobs(ctx, a + b) == RunJobs(ctx, a)
    decreases |b|
  {
    if |b| > 0 {
      assert (a + b)[..|a + b| - 1] == a + b[..|b| - 1];
      FaultAbsorbs(ctx, a, b[..|b| - 1]);
    } else {
      assert a + b == a;
    }
  }

  /** When the jobs done so far raised, the whole run ends where they did. */
  lemma FaultIsFinal(ctx: Context, all: seq<Job>, done: seq<Job>)
    requires |done| <= |all| && done == all[..|done|]
    requires RunJobs(ctx, done).fault.Some?
    ensures RunJobs(ctx, all) == RunJobs(ctx, done)
  {
    assert all == done + all[|done|..];
    FaultAbsorbs(ctx, done, all[|done|..]);
  }

  /**
   * The posts of a run are the requests of its first jobs, in order, each
   * answered by the server knowing every post sent before it.
   */
  ghost predicate PostedInOrder(ctx: Context, jobs: seq<Job>, st: RunState) {
    && |st.sent| == |st.answers| <= |jobs|
    && (forall j :: 0 <= j < |st.sent| ==> ctx.build(jobs[j]) == Success(st.sent[j]))
    && (forall j :: 0 <= j < |st.sent| ==> st.answers[j] == ctx.server(ctx.earlier + st.sent[..j], st.sent[j]))
  }

  /**
   * A run stops only at an escaped exception. Without one, every job was
   * posted and no answer raised. With one, either the next job's request
   * could not be built, or the last post raised; every answer before that
   * was an acceptance or an APIError.
   */
  ghost predicate StopsAtFault(ctx: Context, jobs: seq<Job>, st: RunState) {
    match st.fault
    case None =>
      && |st.sent| == |jobs|
      && (forall j :: 0 <= j < |st.answers| ==> !st.answers[j].Raised?)
    case Some(e) =>
      || (&& |st.sent| < |jobs| && ctx.build(jobs[|st.sent|]) == Failure(e)
          && (forall j :: 0 <= j < |st.answers| ==> !st.answers[j].Raised?))
      || (&& 0 < |st.answers| && e.ClientError? && st.answers[|st.answers| - 1] == Raised(e.message)
          && (forall j :: 0 <= j < |st.answers| - 1 ==> !st.answers[j].Raised?))
  }

  /** What one more job does to a run. */
  lemma StepEffect(ctx: Context, st0: RunState, job: Job)
    ensures var st := Step(ctx, st0, job);
      if st0.fault.None? && ctx.build(job).Success? then
        var p := ctx.build(job).value;
        var a := ctx.server(ctx.earlier + st0.sent, p);
        && st.sent == st0.sent + [p] && st.answers == st0.answers + [a]
        && st.bad == (if a.ApiError? then st0.bad[job.test.name := a.message] else st0.bad)
        && st.fault == (if a.Raised? then Some(ClientError(a.message)) else None)
      else
        && st.sent == st0.sent && st.answers == st0.answers && st.bad == st0.bad
        && st.fault == (if st0.fault.Some? then st0.fault else Some(ctx.build(job).error))
  {
  }

  /** A run posts at most one request per job, gets one answer per post, and posts for every job unless it stopped. */
  lemma {:induction false} RunJobsLengths(ctx: Context, jobs: seq<Job>)
    ensures var st := RunJobs(ctx, jobs);
      |st.sent| == |st.answers| <= |jobs| && (st.fault.None? ==> |st.sent| == |jobs|)
    decreases |jobs|
  {
    if |jobs| > 0 {
      RunJobsLengths(ctx, jobs[..|jobs| - 1]);
      StepEffect(ctx, RunJobs(ctx, jobs[..|jobs| - 1]), jobs[|jobs| - 1]);
    }
  }

  /** Posting one more job's request keeps the posts in order. */
  lemma PostedInOrderSnoc(ctx: Context, jobs: seq<Job>, st0: RunState, st: RunState, job: Job)
    requires PostedInOrder(ctx, jobs, st0) && |st0.sent| == |jobs| && ctx.build(job).Success?
    requires st.sent == st0.sent + [ctx.build(job).value]
    requires st.answers == st0.answers + [ctx.server(ctx.earlier + st0.sent, ctx.build(job).value)]
    ensures PostedInOrder(ctx, jobs + [job], st)
  {
    var n, jobs' := |jobs|, jobs + [job];
    forall j | 0 <= j < n + 1
      ensures ctx.build(jobs'[j]) == Success(st.sent[j])
      ensures st.answers[j] == ctx.server(ctx.earlier + st.sent[..j], st.sent[j])
    {
      if j < n {
        assert jobs'[j] == jobs[j] && st.sent[j] == st0.sent[j] && st.answers[j] == st0.answers[j];
        assert st.sent[..j] == st0.sent[..j];
      } else {
        assert st.sent[..n] == st0.sent;
      }
    }
  }

  /** A job that was never posted leaves the posts in order. */
  lemma PostedInOrderMoreJobs(ctx: Context, jobs: seq<Job>, st: RunState, job: Job)
    requires PostedInOrder(ctx, jobs, st)
    ensures PostedInOrder(ctx, jobs + [job], st)
  {
    assert forall j :: 0 <= j < |jobs| ==> (jobs + [job])[j] == jobs[j];
  }

  lemma {:induction false} RunJobsPostsInOrder(ctx: Context, jobs: seq<Job>)
    ensures PostedInOrder(ctx, jobs, RunJobs(ctx, jobs))
    decreases |jobs|
  {
    if |jobs| > 0 {
      var prev, job := jobs[..|jobs| - 1], jobs[|jobs| - 1];
      RunJobsPostsInOrder(ctx, prev);
      RunJobsLengths(ctx, prev);
      var st0 := RunJobs(ctx, prev);
      StepEffect(ctx, st0, job);
      assert jobs == prev + [job];
      if st0.fault.None? && ctx.build(job).Success? {
        PostedInOrderSnoc(ctx, prev, st0, RunJobs(ctx, jobs), job);
      } else {
        PostedInOrderMoreJobs(ctx, prev, st0, job);
      }
    }
  }

  lemma {:induction false} RunJobsStopsAtFault(ctx: Context, jobs: seq<Job>)
    ensures StopsAtFault(ctx, jobs, RunJobs(ctx, jobs))
    decreases |jobs|
  {
    if |jobs| > 0 {
      var prev, job := jobs[..|jobs| - 1], jobs[|jobs| - 1];
      RunJobsStopsAtFault(ctx, prev);
      RunJobsLengths(ctx, prev);
      StepEffect(ctx, RunJobs(ctx, prev), job);
      assert jobs == prev + [job];
    }
  }

  /** Some post for a test named `k` was answered with an APIError. */
  ghost predicate RefusedFor(jobs: seq<Job>, answers: seq<Response>, k: string) {
    exists j :: 0 <= j < |answers| && j < |jobs| && answers[j].ApiError? && jobs[j].test.name == k
  }

  /** `answers[j]` is an APIError, and no later answer is one for a test of the same name. */
  ghost predicate LastRefusalAt(jobs: seq<Job>, answers: seq<Response>, j: int) {
    && 0 <= j < |answers| && j < |jobs| && answers[j].ApiError?
    && forall j' :: j < j' < |answers| && j' < |jobs| && answers[j'].ApiError? ==> jobs[j'].test.name != jobs[j].test.name
  }

  /**
   * `bad` holds exactly the names of the tests refused with an APIError,
   * each with the message of the last refusal for that name.
   */
  ghost predicate BadResultsOf(jobs: seq<Job>, answers: seq<Response>, bad: map<string, string>) {
    && (forall k :: k in bad <==> RefusedFor(jobs, answers, k))
    && (forall j :: LastRefusalAt(jobs, answers, j) ==> jobs[j].test.name in bad && bad[jobs[j].test.name] == answers[j].message)
  }

  /** Recording one more answer keeps `bad` what it should be. */
  lemma BadResultsSnoc(jobs: seq<Job>, answers: seq<Response>, bad: map<string, string>, job: Job, a: Response)
    requires |answers| == |jobs| && BadResultsOf(jobs, answers, bad)
    ensures BadResultsOf(jobs + [job], answers + [a], if a.ApiError? then bad[job.test.name := a.message] else bad)
  {
    var jobs', answers' := jobs + [job], answers + [a];
    var bad' := if a.ApiError? then bad[job.test.name := a.message] else bad;
    var n := |jobs|;
    forall k ensures k in bad' <==> RefusedFor(jobs', answers', k) {
      if RefusedFor(jobs, answers, k) {
        var j :| 0 <= j < n && answers[j].ApiError? && jobs[j].test.name == k;
        assert answers'[j].ApiError? && jobs'[j].test.name == k;
      } else if a.ApiError? && job.test.name == k {
        assert answers'[n].ApiError? && jobs'[n].test.name == k;
      } else {
        assert forall j :: 0 <= j < n ==> answers'[j] == answers[j] && jobs'[j] == jobs[j];
      }
    }
    forall j | LastRefusalAt(jobs', answers', j)
      ensures jobs'[j].test.name in bad' && bad'[jobs'[j].test.name] == answers'[j].message
    {
      if j < n {
        assert answers'[j] == answers[j] && jobs'[j] == jobs[j];
        forall j' | j < j' < n && answers[j'].ApiError?
          ensures jobs[j'].test.name != jobs[j].test.name
        {
          assert answers'[j'] == answers[j'] && jobs'[j'] == jobs[j'];
        }
        assert LastRefusalAt(jobs, answers, j);
      }
    }
  }

  /** A job that was never posted changes nothing about `bad`. */
  lemma BadResultsMoreJobs(jobs: seq<Job>, answers: seq<Response>, bad: map<string, string>, job: Job)
    requires |answers| <= |jobs| && BadResultsOf(jobs, answers, bad)
    ensures BadResultsOf(jobs + [job], answers, bad)
  {
    assert forall j :: 0 <= j < |jobs| ==> (jobs + [job])[j] == jobs[j];
  }

  /**
   * `bad_results` holds exactly the names of the tests whose post was
   * answered with an APIError, each with the message of the last such
   * answer: a later error for the same name overwrites an earlier one.
   */
  lemma {:induction false} RunJobsBadResults(ctx: Context, jobs: seq<Job>)
    ensures var st := RunJobs(ctx, jobs); BadResultsOf(jobs, st.answers, st.bad)
    decreases |jobs|
  {
    if |jobs| > 0 {
      var prev, job := jobs[..|jobs| - 1], jobs[|jobs| - 1];
      RunJobsBadResults(ctx, prev);
      RunJobsLengths(ctx, prev);
      var st0 := RunJobs(ctx, prev);
      StepEffect(ctx, st0, job);
      assert jobs == prev + [job];
      if st0.fault.None? && ctx.build(job).Success? {
        BadResultsSnoc(prev, st0.answers, st0.bad, job, ctx.server(ctx.earlier + st0.sent, ctx.build(job).value));
      } else {
        BadResultsMoreJobs(prev, st0.answers, st0.bad, job);
      }
    }
  }

  /**
   * The posts of a run carry PASSED for every pass, then FAILED for every
   * failure, then BLOCKED for every skip.
   */
  lemma SentStatuses(ctx: Context, results: JunitResults, junitFile: string, testrunId: string, fs: FileSystem)
    requires BuildsFor(ctx, junitFile, testrunId, fs)
    ensures var st, P, F := RunJobs(ctx, Jobs(results)), |results.passes|, |results.failures|;
      forall j :: 0 <= j < |st.sent| ==>
        st.sent[j].statusId == (if j < P then PASSED else if j < P + F then FAILED else BLOCKED)
  {
    var jobs := Jobs(results);
    var st := RunJobs(ctx, jobs);
    RunJobsPostsInOrder(ctx, jobs);
    forall j | 0 <= j < |st.sent|
      ensures st.sent[j].statusId == jobs[j].status
    {
      assert ctx.build(jobs[j]) == SubmitRequest(jobs[j].status, jobs[j].test, junitFile, testrunId, fs);
    }
  }

  /**
   * APIErrors do not stop a run: when every request can be built and the
   * server never raises anything else, every job is posted and the run
   * returns `bad_results`.
   */
  lemma ApiErrorsDoNotStop(ctx: Context, jobs: seq<Job>)
    requires forall j :: 0 <= j < |jobs| ==> ctx.build(jobs[j]).Success?
    requires forall h, p :: !ctx.server(h, p).Raised?
    ensures var st := RunJobs(ctx, jobs);
      |st.sent| == |jobs| && Outcome(st) == Success(st.bad)
  {
    RunJobsPostsInOrder(ctx, jobs);
    RunJobsStopsAtFault(ctx, jobs);
  }

  /**
   * A job whose request cannot be built ends the run even when the server
   * accepts everything: every job before it is posted, it and the jobs
   * after it are not, and the run raises that job's error instead of
   * returning `bad_results`.
   */
  lemma BuildFailureAborts(ctx: Context, jobs: seq<Job>, i: int)
    requires 0 <= i < |jobs| && ctx.build(jobs[i]).Failure?
    requires forall j :: 0 <= j < i ==> ctx.build(jobs[j]).Success?
    requires forall h, p :: !ctx.server(h, p).Raised?
    ensures var st := RunJobs(ctx, jobs);
      |st.sent| == i && Outcome(st) == Failure(ctx.build(jobs[i]).error)
  {
    RunJobsPostsInOrder(ctx, jobs);
    RunJobsStopsAtFault(ctx, jobs);
  }

  /**
   * A test script with no line naming a case aborts the whole run with
   * `NoMethodError`: the lookup's exception is not a `TestRail::APIError`.
   */
  lemma MissingCaseIdAbortsRun(ctx: Context, results: JunitResults, junitFile: string, testrunId: string,
                               fs: FileSystem, i: int)
    requires BuildsFor(ctx, junitFile, testrunId, fs)
    requires forall h, p :: !ctx.server(h, p).Raised?
    requires 0 <= i < |Jobs(results)|
    requires forall j :: 0 <= j < i ==> ctx.build(Jobs(results)[j]).Success?
    requires var t := Jobs(results)[i].test;
      var path := Paths.BeakerTestPath(junitFile, t.classname, t.name);
      path in fs && CaseId.TestcaseIdFromBeakerScript(fs[path]).Failure?
    ensures var st := RunJobs(ctx, Jobs(results));
      |st.sent| == i && Outcome(st).Failure? && Outcome(st).error.NoMethodError?
  {
    var job := Jobs(results)[i];
    SubmitRequestSpec(job.status, job.test, junitFile, testrunId, fs);
    BuildFailureAborts(ctx, Jobs(results), i);
  }
}
