/**
 * `submit_result` up to the HTTP call: locate the beaker script, read its
 * case id, format the elapsed time, choose the comment by status and build
 * the `add_result_for_case/<run>/<case>` post.
 */
module Submit {
  import opened Wrappers
  import opened Faults
  import opened Junit
  import Elapsed
  import CaseId
  import Paths

  /** TestRail status ids. */
  const PASSED := 1
  const BLOCKED := 2
  const FAILED := 5

  /** What `File.readlines` returns for each path that exists. */
  type FileSystem = map<string, seq<string>>

  /** The body of `api.send_post`: the endpoint and `{status_id:, comment:, elapsed:}`. */
  datatype Post = Post(endpoint: string, statusId: int, comment: string, elapsed: string)

  const FailedPrefix := "Failed with message:\n"
  const SkippedPrefix := "Skipped with message:\n"
  const PassedComment := "Passed"
  const Route := "add_result_for_case/"

  /** `"#{v}"` for an attribute value that may be nil: nil interpolates as "". */
  function Interpolate(v: Option<string>): string {
    match v
    case Some(s) => s
    case None => ""
  }

  /**
   * The `case status` of `submit_result`: FAILED reads the `message` of the
   * first `<failure>` child, BLOCKED the text of the first `<system-out>`
   * child, and either raises NoMethodError when that child is missing.
   */
  function Comment(status: int, t: TestCase): (r: Result<string, Fault>)
    ensures r.Failure? <==> (status == FAILED && |t.failures| == 0) || (status == BLOCKED && |t.systemOut| == 0)
    ensures r.Failure? ==> r.error.NoMethodError?
  {
    if status == FAILED then
      if |t.failures| == 0 then Failure(NilReceiver("[]"))
      else Success(FailedPrefix + Interpolate(t.failures[0]))
    else if status == BLOCKED then
      if |t.systemOut| == 0 then Failure(NilReceiver("text"))
      else Success(SkippedPrefix + t.systemOut[0])
    else Success(PassedComment)
  }

  /** What a comment says: its kind and, for failures and skips, the message it carries. */
  datatype CommentKind = FailedWith(message: string) | SkippedWith(message: string) | PassedKind | Unrecognised

  function ParseComment(c: string): CommentKind {
    if |c| >= |FailedPrefix| && c[..|FailedPrefix|] == FailedPrefix then FailedWith(c[|FailedPrefix|..])
    else if |c| >= |SkippedPrefix| && c[..|SkippedPrefix|] == SkippedPrefix then SkippedWith(c[|SkippedPrefix|..])
    else if c == PassedComment then PassedKind
    else Unrecognised
  }

  /** Reading a comment back gives the status's kind and the message it quotes. */
  lemma CommentRoundTrip(status: int, t: TestCase)
    ensures Comment(status, t).Success? ==>
      ParseComment(Comment(status, t).value) ==
        if status == FAILED then FailedWith(Interpolate(t.failures[0]))
        else if status == BLOCKED then SkippedWith(t.systemOut[0])
        else PassedKind
  {
    if Comment(status, t).Success? {
      var c := Comment(status, t).value;
      if status == FAILED {
        assert c[..|FailedPrefix|] == FailedPrefix;
      } else if status == BLOCKED {
        assert c[..|SkippedPrefix|] == SkippedPrefix;
        assert c[..|FailedPrefix|] != FailedPrefix by { assert c[0] != FailedPrefix[0]; }
      }
    }
  }

  /** The documented failure comment: message "assertion X" gives "Failed with message:\nassertion X". */
  lemma CommentExample(t: TestCase)
    requires |t.failures| > 0 && t.failures[0] == Some("assertion X")
    ensures Comment(FAILED, t) == Success("Failed with message:\nassertion X")
  {
    assert FailedPrefix + "assertion X" == "Failed with message:\nassertion X";
  }

  /** "add_result_for_case/<testrun_id>/<testcase_id>" */
  function Endpoint(testrunId: string, caseId: string): string {
    Route + testrunId + "/" + caseId
  }

  /** Split an endpoint back into run id and case id at its last '/'. */
  function ParseEndpoint(e: string): Option<(string, string)> {
    if |e| < |Route| || e[..|Route|] != Route then None
    else
      var rest := e[|Route|..];
      match Paths.LastSeparator(rest, 0, |rest|)
      case None => None
      case Some(k) => Some((rest[..k], rest[k + 1..]))
  }

  /** The endpoint names the run and the case: both are recovered from it. */
  lemma EndpointRoundTrip(testrunId: string, caseId: string)
    requires '/' !in caseId
    ensures ParseEndpoint(Endpoint(testrunId, caseId)) == Some((testrunId, caseId))
  {
    var e := Endpoint(testrunId, caseId);
    assert e[..|Route|] == Route;
    var rest := e[|Route|..];
    assert rest == testrunId + "/" + caseId;
    forall k | |testrunId| < k < |rest| ensures rest[k] != '/' {
      assert rest[k] == caseId[k - |testrunId| - 1];
    }
    Paths.LastSeparatorAt(rest, 0, |rest|, |testrunId|);
    assert rest[..|testrunId|] == testrunId;
    assert rest[|testrunId| + 1..] == caseId;
  }

  /**
   * `submit_result` before `send_post`, in the order the code does it:
   * the script's path, its case id (File.readlines raises for a missing
   * file), the elapsed time, then the comment.
   */
  function SubmitRequest(status: int, t: TestCase, junitFile: string, testrunId: string, fs: FileSystem)
    : (r: Result<Post, Fault>)
    ensures r.Success? ==> r.value.statusId == status && r.value.elapsed == Elapsed.MakeTestrailTime(t.time)
    ensures r.Failure? ==> r.error.FileNotFound? || r.error.NoMethodError?
  {
    var path := Paths.BeakerTestPath(junitFile, t.classname, t.name);
    if path !in fs then Failure(FileNotFound(path))
    else match CaseId.TestcaseIdFromBeakerScript(fs[path])
      case Failure(e) => Failure(e)
      case Success(caseId) =>
        var elapsed := Elapsed.MakeTestrailTime(t.time);
        match Comment(status, t)
        case Failure(e) => Failure(e)
        case Success(comment) => Success(Post(Endpoint(testrunId, caseId), status, comment, elapsed))
  }

  /**
   * A request is built exactly when the script exists, has a line matching
   * the case-id pattern and the comment can be read; the post then carries
   * the status, an endpoint naming the run and that case id, the elapsed
   * time and the comment. Otherwise the first of those steps to fail gives
   * the exception.
   */
  lemma SubmitRequestSpec(status: int, t: TestCase, junitFile: string, testrunId: string, fs: FileSystem)
    ensures var path := Paths.BeakerTestPath(junitFile, t.classname, t.name);
      var r := SubmitRequest(status, t, junitFile, testrunId, fs);
      && (path !in fs ==> r == Failure(FileNotFound(path)))
      && (path in fs && CaseId.TestcaseIdFromBeakerScript(fs[path]).Failure? ==> r.Failure? && r.error.NoMethodError?)
      && (r.Success? <==>
            path in fs && CaseId.TestcaseIdFromBeakerScript(fs[path]).Success? && Comment(status, t).Success?)
      && (r.Success? ==>
            var caseId := CaseId.TestcaseIdFromBeakerScript(fs[path]).value;
            && r.value.statusId == status
            && ParseEndpoint(r.value.endpoint) == Some((testrunId, caseId))
            && r.value.comment == Comment(status, t).value
            && r.value.elapsed == Elapsed.MakeTestrailTime(t.time))
  {
    var path := Paths.BeakerTestPath(junitFile, t.classname, t.name);
    if path in fs && CaseId.TestcaseIdFromBeakerScript(fs[path]).Success? {
      var caseId := CaseId.TestcaseIdFromBeakerScript(fs[path]).value;
      CaseId.TestcaseIdIsFirstCapture(fs[path]);
      assert '/' !in caseId;
      EndpointRoundTrip(testrunId, caseId);
    }
  }
}
