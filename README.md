# beaker_testrail in Dafny

This project models `BeakerTestrail` from the telly repository. The importer reads a beaker JUnit report, splits its `<testcase>` elements into passes, failures and skips, and posts one TestRail result per record of each group, so a test case that is in two groups is posted twice. Each post is sent to `add_result_for_case/<testrun_id>/<testcase_id>` and carries a status, a comment and an elapsed time. The case id comes from the first line of the beaker test script that matches `TESTCASE_ID_REGEX`, whatever kind of line it is. The importer looks for the script at `<report's directory>/../../<classname>/<name>`.

The project has one module per concern:

- `Wrappers` holds `Option` and `Result`.
- `Faults` holds the Ruby exceptions that are not `TestRail::APIError`: `NoMethodError`, `Errno::ENOENT` and any other client exception.
- `Junit` holds the parsed report and the three XPath filters of `load_junit_results`.
- `Elapsed` models `make_testrail_time`: `Float#round` with ties away from zero, a floor of 1, then `Integer#to_s` followed by "s".
- `CaseId` models `TESTCASE_ID_REGEX` and `testcase_id_from_beaker_script`. A hand-written matcher is proved complete against the regex, read as a set of decompositions. Its capture is proved to come from the greediest decomposition.
- `Paths` models `File.dirname` and `File.join` for '/'-separated paths, following Ruby's own definitions, and `beaker_test_path` on top of them.
- `Submit` models `submit_result` up to the HTTP call. It builds the comment, the endpoint and the post, in the order the code does.
- `Orchestrate` models `set_testrail_results` and the client.
  - The client is a class `TestRailClient`. It keeps the log of posts it has sent and asks a server oracle for each answer.
  - The run is three loops over passes, failures and skips. It is proved equal to a left fold, `RunJobs`, and the properties of the run are lemmas about that fold.

Two behaviours of the code are easy to misread, and the model follows the code in both.

First, the three groups are not a partition. `failures` is every test case with a `<failure>` child and `skips` every one with a `<skip>` child (lib/beaker_testrail.rb:247-248). A test case with both children is in both groups and is submitted twice, once as FAILED and once as BLOCKED. `Junit.Classification` and `Junit.GroupSizes` state this.

Second, only `TestRail::APIError` is rescued inside the loops (lib/beaker_testrail.rb:136, 145, 154). Any other exception escapes `set_testrail_results` and ends the whole run with nothing more posted:
- a script with no line matching the case-id pattern (`nil[:testrun_id]` raises `NoMethodError`);
- a script file that does not exist;
- a skip without a `<system-out>` child, and, only for `results` built by hand rather than by `load_junit_results`, a failure without a `<failure>` child;
- any non-APIError exception from the HTTP client.

A failed case-id lookup is therefore not recorded in `bad_results`. `Orchestrate.MissingCaseIdAbortsRun` states this.

## Model

| member | source | states |
|---|---|---|
| Junit.Filter | lib/beaker_testrail.rb:247-249 | an XPath predicate filter keeps only matching elements, never more than the input, and keeps every matching one |
| Junit.LoadJunitResults | lib/beaker_testrail.rb:244-252 | `failures` is exactly the test cases with a `<failure>` child, `skips` exactly those with a `<skip>` child, `passes` exactly those with neither |
| Junit.FilterAppend | lib/beaker_testrail.rb:247-249 | filtering a concatenation is the concatenation of the filtered parts, so each group keeps document order |
| Junit.FilterSingleton | lib/beaker_testrail.rb:247-249 | a single element is kept exactly when it satisfies the filter |
| Junit.FilterMultiplicity | lib/beaker_testrail.rb:247-249 | a selected element keeps every one of its occurrences; an unselected one keeps none |
| Junit.FilterIsSubsequence | lib/beaker_testrail.rb:247-249 | the selected elements are the document's elements at strictly increasing positions |
| Junit.Classification | lib/beaker_testrail.rb:247-249 | every test case is in some group, `passes` shares none with the other two, and a test case is in both `failures` and `skips` exactly when it has both children |
| Junit.GroupsKeepOrder | lib/beaker_testrail.rb:247-251 | each group of a concatenated document is the concatenation of the parts' groups |
| Junit.GroupSizes | lib/beaker_testrail.rb:247-251 | the three groups hold every test case once, plus once more for each case with both a failure and a skip |
| Elapsed.Round | lib/beaker_testrail.rb:223 | `Float#round` lies within one half of its input, and ties go away from zero |
| Elapsed.RoundUnique | lib/beaker_testrail.rb:223 | any integer within one half of x, with ties away from zero, is `Round(x)` |
| Elapsed.Decimal | lib/beaker_testrail.rb:225 | `Integer#to_s` of a natural number is a non-empty digit string without a leading zero, unless the number is 0 |
| Elapsed.DecimalRoundTrip | lib/beaker_testrail.rb:225 | reading back the digits written for n gives n |
| Elapsed.DecimalInjective | lib/beaker_testrail.rb:225 | different numbers give different digit strings |
| Elapsed.ReportedSeconds | lib/beaker_testrail.rb:223 | `[x.round, 1].max` is at least 1, and is the rounded value unless that is below 1 |
| Elapsed.MakeTestrailTime | lib/beaker_testrail.rb:221-228 | the result is digits followed by "s", with no leading zero |
| Elapsed.MakeTestrailTimeValue | lib/beaker_testrail.rb:209-228 | the number before "s" is the input rounded to the nearest second, or 1 when that is below 1; the result is never "0s" |
| Elapsed.MakeTestrailTimeExamples | lib/beaker_testrail.rb:209-228 | 2.34 gives "2s", 0 gives "1s", 59.5 gives "60s" |
| Faults.NilReceiver | lib/beaker_testrail.rb:266 | calling a method on nil raises `NoMethodError`, whose message opens with "undefined method `" followed by the method's name |
| CaseId.LastMark | lib/beaker_testrail.rb:30 | finds the last `[cC]` followed by a digit in a prefix of the line, or shows there is none |
| CaseId.FirstTicketDash | lib/beaker_testrail.rb:30 | finds a `\w-\d` within a range, or shows there is none |
| CaseId.DigitRunEnd | lib/beaker_testrail.rb:30 | `\d+` taken greedily: every character up to the end is a digit, and the one after is not |
| CaseId.MatchSegment | lib/beaker_testrail.rb:30 | the matcher for one break-free stretch of a line; its capture is a non-empty digit string, and `MatchSegmentComplete` and `MatchSegmentCapture` prove it agrees with the regex |
| CaseId.MatchSegmentComplete | lib/beaker_testrail.rb:30 | on a line without breaks, the matcher succeeds exactly when `TESTCASE_ID_REGEX` matches it |
| CaseId.MatchSegmentCapture | lib/beaker_testrail.rb:30 | the matcher's capture is the `testrun_id` of the greediest match, the one a backtracking engine returns |
| CaseId.LineBreak | lib/beaker_testrail.rb:30 | finds the first "\n" of a line, with no break before it |
| CaseId.LineBreakAt | lib/beaker_testrail.rb:30 | the first "\n" of a line is determined by its position |
| CaseId.MatchLine | lib/beaker_testrail.rb:264 | `line.match(TESTCASE_ID_REGEX)` reduced to the capture: the first break-free stretch that matches decides; specified by `MatchLineOneSegment` and `MatchLineDigits` (no contract of its own) |
| CaseId.MatchLineOneSegment | lib/beaker_testrail.rb:264 | a line from `File.readlines`, with or without its trailing "\n", matches as its text does |
| CaseId.MatchLineDigits | lib/beaker_testrail.rb:264 | whatever a line yields is a non-empty digit string |
| CaseId.FirstMatch | lib/beaker_testrail.rb:264 | `map`, `compact`, `first` over the lines; specified by `FirstMatchSpec` and `LaterLinesIgnored` (no contract of its own) |
| CaseId.FirstMatchSpec | lib/beaker_testrail.rb:264 | `map`, `compact`, `first` give nothing exactly when no line matches, and otherwise the capture of the first line that matches |
| CaseId.TestcaseIdFromBeakerScript | lib/beaker_testrail.rb:262-267 | raises exactly when no line matches, and the exception is `NoMethodError` |
| CaseId.TestcaseIdIsFirstCapture | lib/beaker_testrail.rb:262-267 | the id returned is a non-empty digit string captured from the first matching line |
| CaseId.LaterLinesIgnored | lib/beaker_testrail.rb:264 | lines after the first matching line never change the id |
| CaseId.ExampleTicketThenCase | lib/beaker_testrail.rb:30 | "PROJ-1234 ... c5678" yields "5678" |
| CaseId.ExampleLastCaseWins | lib/beaker_testrail.rb:30 | "BKR-12 c1 C345" yields "345": the greedy `.*` passes over earlier case numbers |
| CaseId.ExampleCaseBeforeTicket | lib/beaker_testrail.rb:30 | "c5678 PROJ-1" does not match: the ticket must come before the case number |
| Paths.LeadingSeparators | lib/beaker_testrail.rb:286 | counts the run of '/' at the start of a path |
| Paths.TrailingStart | lib/beaker_testrail.rb:286 | finds where the run of '/' at the end of a path begins |
| Paths.LastSeparator | lib/beaker_testrail.rb:286 | finds the last '/' in a range, or shows there is none |
| Paths.RunStart | lib/beaker_testrail.rb:286 | finds the start of the run of '/' that holds a given '/' |
| Paths.Dirname | lib/beaker_testrail.rb:286 | `File.dirname` is never empty, is "." for a path with no '/', and ends in '/' only when it is "/" |
| Paths.CutPoint | lib/beaker_testrail.rb:286 | the point where `File.dirname` cuts lies at or past the end of the leading '/'s, and is directly after a '/' only when it is that end |
| Paths.LeadingSeparatorsAt | lib/beaker_testrail.rb:286 | the number of leading '/' is determined by the first other character |
| Paths.DirnameCut | lib/beaker_testrail.rb:286 | for a path with at most one leading '/' and no trailing '/', whose last '/' past the root stands alone at c, `File.dirname` is `s[..c]` |
| Paths.LastSeparatorAt | lib/beaker_testrail.rb:286 | the last '/' in a range is determined by its position |
| Paths.DirnameOneCut | lib/beaker_testrail.rb:286 | a path with at most one leading '/', no trailing '/', and exactly one '/' past the root, standing alone at c, has directory `s[..c]` |
| Paths.ChildShape | lib/beaker_testrail.rb:286 | for a non-empty d with at most one leading '/' and no trailing '/', and a non-empty f without '/', "d/f" has exactly one '/' past d's root, right after d |
| Paths.DirnameOfChild | lib/beaker_testrail.rb:286 | `File.dirname("d/f")` is d for a non-empty d with at most one leading '/' and no trailing '/', and a non-empty file name f without '/' |
| Paths.JoinTwo | lib/beaker_testrail.rb:286 | one joint of `File.join`; specified by `JoinTwoJoint`, `JoinTwoInsertsSeparator` and `JoinTwoAfterSeparator` (no contract of its own) |
| Paths.JoinTwoJoint | lib/beaker_testrail.rb:286 | a `File.join` joint keeps the left part up to its trailing '/'s, then has only '/'s, at least one, then the right part unchanged |
| Paths.JoinTwoInsertsSeparator | lib/beaker_testrail.rb:286 | joining a right part that does not start with '/' after a non-empty left part that does not end in '/' inserts exactly one '/' |
| Paths.JoinTwoAfterSeparator | lib/beaker_testrail.rb:286 | joining a right part that does not start with '/' after a left part that ends in '/' adds no '/' |
| Paths.FileJoin | lib/beaker_testrail.rb:286 | `File.join` of any number of parts as a left fold of joints; specified by `FileJoinSnoc` and `FileJoinFour` (no contract of its own) |
| Paths.FileJoinSnoc | lib/beaker_testrail.rb:286 | `File.join` of one more part is one more joint |
| Paths.FileJoinFour | lib/beaker_testrail.rb:286 | `File.join` of four parts joins them from the left |
| Paths.BeakerTestPath | lib/beaker_testrail.rb:282-287 | `beaker_test_path`; specified by `BeakerTestPathEndsWithName` and `BeakerTestPathLayout` (no contract of its own) |
| Paths.BeakerTestPathEndsWithName | lib/beaker_testrail.rb:282-287 | the script path ends with the test's name |
| Paths.BeakerTestPathLayout | lib/beaker_testrail.rb:282-287 | for a classname that neither starts nor ends with '/' and a name that does not start with '/', the script path is the report's directory, then "/" unless that directory is "/" itself, then "../../", the classname, "/" and the name |
| Paths.JoinLayout | lib/beaker_testrail.rb:286 | the three joints of `beaker_test_path` put exactly one '/' between the directory and "../../" (none after the root "/"), none before the classname and one before the name |
| Paths.DirnameExample | lib/beaker_testrail.rb:281 | the directory of "~/junit/latest/beaker_junit.xml" is "~/junit/latest" |
| Paths.BeakerTestPathExample | lib/beaker_testrail.rb:281-287 | a report in "~/junit/latest" finds the script "tests/t.rb" at "~/junit/latest/../../tests/t.rb" |
| Submit.Comment | lib/beaker_testrail.rb:185-194 | the comment raises, with `NoMethodError`, exactly when FAILED has no `<failure>` child or BLOCKED has no `<system-out>` child |
| Submit.CommentRoundTrip | lib/beaker_testrail.rb:185-194 | a comment that was built reads back as "Failed" with the first failure's message, "Skipped" with the first system-out text, or "Passed", by status |
| Submit.CommentExample | lib/beaker_testrail.rb:186-188 | a failure with message "assertion X" gives "Failed with message:\nassertion X" |
| Submit.Endpoint | lib/beaker_testrail.rb:199 | `add_result_for_case/<run>/<case>`; specified by `EndpointRoundTrip` (no contract of its own) |
| Submit.EndpointRoundTrip | lib/beaker_testrail.rb:199 | the endpoint names the run and the case: both are recovered from it |
| Submit.SubmitRequest | lib/beaker_testrail.rb:176-205 | a built post carries the status it was submitted with and the formatted elapsed time; a request that cannot be built raises only a file-read error (`FileNotFound`) or `NoMethodError`, never an APIError |
| Submit.SubmitRequestSpec | lib/beaker_testrail.rb:176-206 | a missing script raises file-not-found; a script without a case id raises `NoMethodError`; a post is built exactly when the script, its case id and the comment are all there, and it then carries the status, the run and case ids, the comment and the elapsed time |
| Orchestrate.Tagged | lib/beaker_testrail.rb:133-157 | each record of a group is paired with the group's status, in order |
| Orchestrate.Jobs | lib/beaker_testrail.rb:133-157 | one call of `submit_result` per record: every pass with PASSED, then every failure with FAILED, then every skip with BLOCKED |
| Orchestrate.Step | lib/beaker_testrail.rb:134-138 | one `begin submit_result rescue TestRail::APIError` block; specified by `StepEffect`, `FaultAbsorbs` and the `RunJobs` lemmas (no contract of its own) |
| Orchestrate.RunJobs | lib/beaker_testrail.rb:133-157 | the three loops as one left fold of `Step`; specified by `RunJobsPostsInOrder`, `RunJobsStopsAtFault`, `RunJobsBadResults` and `SentStatuses` (no contract of its own) |
| Orchestrate.Outcome | lib/beaker_testrail.rb:159 | `bad_results` when nothing escaped, otherwise the escaped exception; used by `SetTestrailResults`, `ApiErrorsDoNotStop` and `BuildFailureAborts` (no contract of its own) |
| Orchestrate.TestRailClient.constructor | lib/beaker_testrail.rb:107-113 | a new client has sent nothing and answers with the given server |
| Orchestrate.TestRailClient.SendPost | lib/beaker_testrail.rb:199-205 | `send_post` appends the post to the client's log and returns the server's answer given every earlier post |
| Orchestrate.SubmitResult | lib/beaker_testrail.rb:176-206 | either raises before anything is sent, or sends exactly the built post and returns the server's answer |
| Orchestrate.SubmitRescuing | lib/beaker_testrail.rb:134-138 | one rescued submission is one step of the run: the posts and `bad_results` match `RunJobs`, and a non-APIError escapes |
| Orchestrate.SubmitGroup | lib/beaker_testrail.rb:133-139 | a group's loop submits its records in order, stops at the first escaping exception, and keeps the client's log and `bad_results` equal to the run so far |
| Orchestrate.SetTestrailResults | lib/beaker_testrail.rb:125-160 | the three loops return `bad_results`, or raise, exactly as the run of all jobs does, and the client has sent exactly that run's posts |
| Orchestrate.BuilderBuildsFor | lib/beaker_testrail.rb:133-157 | the context built from `submit_result` builds every job's request as `submit_result` does |
| Orchestrate.RunJobsSnoc | lib/beaker_testrail.rb:133-157 | proof helper: unfolds `RunJobs` by one record |
| Orchestrate.FaultAbsorbs | lib/beaker_testrail.rb:133-157 | after an exception escapes, later records change nothing |
| Orchestrate.FaultIsFinal | lib/beaker_testrail.rb:125-160 | an exception in an early group ends the run where it was raised |
| Orchestrate.StepEffect | lib/beaker_testrail.rb:134-138 | proof helper: unfolds `Step` into its effect on the posts, answers, `bad_results` and escaped exception |
| Orchestrate.RunJobsLengths | lib/beaker_testrail.rb:133-157 | at most one post per record and one answer per post, and a post for every record when nothing escaped |
| Orchestrate.PostedInOrderSnoc | lib/beaker_testrail.rb:133-157 | posting one more record's request keeps the posts in record order |
| Orchestrate.PostedInOrderMoreJobs | lib/beaker_testrail.rb:133-157 | a record that was not posted leaves the posts in order |
| Orchestrate.RunJobsPostsInOrder | lib/beaker_testrail.rb:133-157 | the posts are the requests of the first records, in order, each answered knowing every earlier post |
| Orchestrate.RunJobsStopsAtFault | lib/beaker_testrail.rb:133-157 | a run stops only at an escaped exception: a request that could not be built, or a raised answer |
| Orchestrate.BadResultsSnoc | lib/beaker_testrail.rb:136-137 | recording one more answer keeps `bad_results` exactly the refused names with their last messages |
| Orchestrate.BadResultsMoreJobs | lib/beaker_testrail.rb:133-157 | a record that was not posted changes nothing in `bad_results` |
| Orchestrate.RunJobsBadResults | lib/beaker_testrail.rb:133-157 | `bad_results` holds exactly the names whose post drew an APIError, each with the message of the last such error |
| Orchestrate.SentStatuses | lib/beaker_testrail.rb:125-160 | the posts carry PASSED (1) for passes, then FAILED (5) for failures, then BLOCKED (2) for skips |
| Orchestrate.ApiErrorsDoNotStop | lib/beaker_testrail.rb:133-157 | when every request can be built and the server raises nothing but APIErrors, every record is posted and the run returns `bad_results` |
| Orchestrate.BuildFailureAborts | lib/beaker_testrail.rb:133-157 | a record whose request cannot be built aborts the run: the records before it are posted, the rest are not, and its exception is raised |
| Orchestrate.MissingCaseIdAbortsRun | lib/beaker_testrail.rb:264-266 | a script with no case-id line aborts the whole run with `NoMethodError` instead of being recorded in `bad_results` |

## Left out

- Nokogiri parsing and XPath evaluation are not modelled. The report is taken as the sequence of its `<testcase>` elements in document order, each with the attributes and children the importer reads.
- `File.read` and `File.readlines` are not modelled as I/O. The file system is a map from path strings to lines. Ruby expands nothing in a path, so `~` stays a literal directory name.
- Faults.FileNotFound: every error of `File.readlines` (a missing file, `Errno::EACCES`, `Errno::EISDIR` and the like) is one fault, raised for any path outside the file-system map. All of them escape the rescue, so the run-level behaviour is the same.
- Orchestrate.RunJobs: `bad_results` is a `map`, which has no order. Ruby's Hash keeps insertion order, in which `main` prints it, and that order is not modelled.
- `String#to_f` and binary floating point are not modelled. A test's `time` is an exact `real`, so rounding corner cases of floats and NaN or infinite times are not captured.
- `load_credentials` (lib/beaker_testrail.rb:86-97) is left out. It reads YAML and exits the process.
- `get_testrail_api` (lib/beaker_testrail.rb:107-113) is left out beyond the client's constructor. It only sets a user and a password on a library class.
- `TestRail::APIClient` and its HTTP are not modelled. The server is a function from the earlier posts and the new post to an answer: accepted, APIError with a message, or another exception.
- `main` (lib/beaker_testrail.rb:55-74) is left out. It prints counts and the bad results.
- The `puts` calls in `submit_result` (lib/beaker_testrail.rb:179, 196-197) are console output only and are left out.
- `do_stub_test` (lib/beaker_testrail.rb:37-41) is left out. It is dead code and calls `send_post` with no arguments.
- The argument parser in lib/telly/arg_parser.rb and the loader lib/telly.rb are left out. They hold option parsing and `require` lines only.
- The specs are left out. They only check that `get_testrail_api` sets credentials.
- CaseId.MatchLine: lines are taken as valid character strings. A script with bytes that are invalid in the external encoding makes `String#match` raise `ArgumentError`, which is not modelled; that exception too would escape the rescue and abort the run.
- Junit.TestCase: nil `name` or `classname` attributes are not modelled. `File.join` would raise `TypeError` on them, but the model takes both as strings.
- Orchestrate.SetTestrailResults: the run's specification is stated for a ghost context. That context's request builder is required to agree with `submit_result` for these inputs (`BuildsFor`), rather than being the builder function itself.
- Submit.EndpointRoundTrip: it requires a case id without '/'. Case ids are digit strings, so this holds for every id the importer reads.
