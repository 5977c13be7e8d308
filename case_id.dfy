/**
 * `testcase_id_from_beaker_script`: the test case id is the `testrun_id`
 * group of TESTCASE_ID_REGEX, `.*(?<jira_ticket>\w+-\d+).*[cC](?<testrun_id>\d+)`,
 * in the first line of the beaker script that matches it.
 *
 * In Ruby `.` does not match "\n", and neither do `\w`, `\d` or `[cC]`, so a
 * match never crosses a line break: a line is matched piece by piece, a
 * "segment" being a stretch without "\n". Within a segment the leading `.*`
 * lets the match start at the segment's first character.
 */
module CaseId {
  import opened Wrappers
  import opened Faults
  import opened Chars

  /** Ruby's `\w`: [a-zA-Z0-9_]. */
  predicate IsWordChar(c: char) {
    ('a' <= c <= 'z') || ('A' <= c <= 'Z') || ('0' <= c <= '9') || c == '_'
  }

  /** `[cC]` */
  predicate IsCaseMark(c: char) { c == 'c' || c == 'C' }

  predicate NoBreak(s: string) { forall k :: 0 <= k < |s| ==> s[k] != '\n' }

  predicate AllDigits(s: string) { forall k :: 0 <= k < |s| ==> IsDigit(s[k]) }

  /**
   * One way the regex matches the segment `s` from its start:
   *   s[..a]    the leading `.*`
   *   s[a..b]   `\w+`, then s[b] == '-'
   *   s[b+1..e] `\d+`           (end of jira_ticket)
   *   s[e..q]   `.*`, then s[q] in [cC]
   *   s[q+1..f] `\d+`           (testrun_id)
   */
  ghost predicate Decomp(s: string, a: int, b: int, e: int, q: int, f: int) {
    && 0 <= a < b && b + 1 < e <= q && q + 1 < f <= |s|
    && (forall k :: 0 <= k < a ==> s[k] != '\n')
    && (forall k :: a <= k < b ==> IsWordChar(s[k]))
    && s[b] == '-'
    && (forall k :: b + 1 <= k < e ==> IsDigit(s[k]))
    && (forall k :: e <= k < q ==> s[k] != '\n')
    && IsCaseMark(s[q])
    && (forall k :: q + 1 <= k < f ==> IsDigit(s[k]))
  }

  ghost predicate Matches(s: string) {
    exists a, b, e, q, f :: Decomp(s, a, b, e, q, f)
  }

  /**
   * Every quantifier of the regex is greedy, so the backtracking engine
   * returns the match whose `.*` before `[cC]` is longest and, for that
   * `.*`, whose final `\d+` is longest: no other decomposition ends its
   * second `.*` later, or as late with a longer `testrun_id`.
   */
  ghost predicate Greediest(s: string, q: int, f: int) {
    forall a', b', e', q', f' :: Decomp(s, a', b', e', q', f') ==> q' < q || (q' == q && f' <= f)
  }

  /** `[cC]` at q followed by a digit. */
  predicate IsMark(s: string, q: int) {
    0 <= q && q + 1 < |s| && IsCaseMark(s[q]) && IsDigit(s[q + 1])
  }

  /** `\w-\d` with the '-' at b. */
  predicate IsTicketDash(s: string, b: int) {
    1 <= b && b + 1 < |s| && IsWordChar(s[b - 1]) && s[b] == '-' && IsDigit(s[b + 1])
  }

  /** The last mark that lies wholly inside s[..n]. */
  function LastMark(s: string, n: nat): (r: Option<nat>)
    requires n <= |s|
    ensures r.Some? ==> r.value + 1 < n && IsMark(s, r.value)
    ensures r.Some? ==> forall q :: r.value < q && q + 1 < n ==> !IsMark(s, q)
    ensures r.None? ==> forall q :: 0 <= q && q + 1 < n ==> !IsMark(s, q)
    decreases n
  {
    if n < 2 then None
    else if IsMark(s, n - 2) then Some(n - 2)
    else LastMark(s, n - 1)
  }

  /** The first ticket dash b with from <= b < to. */
  function FirstTicketDash(s: string, from: nat, to: nat): (r: Option<nat>)
    ensures r.Some? ==> from <= r.value < to && IsTicketDash(s, r.value)
    ensures r.None? ==> (forall b :: from <= b < to ==> !IsTicketDash(s, b))
    decreases if to > from then to - from else 0
  {
    if to <= from then None
    else if IsTicketDash(s, from) then Some(from)
    else FirstTicketDash(s, from + 1, to)
  }

  /** Where the run of digits starting at i ends. */
  function DigitRunEnd(s: string, i: nat): (e: nat)
    requires i <= |s|
    ensures i <= e <= |s|
    ensures forall k :: i <= k < e ==> IsDigit(s[k])
    ensures e < |s| ==> !IsDigit(s[e])
    decreases |s| - i
  {
    if i < |s| && IsDigit(s[i]) then DigitRunEnd(s, i + 1) else i
  }

  /**
   * The matcher for one segment: find the last `[cC]\d`; the segment matches
   * when some `\w-\d` ends before it, and `testrun_id` is the whole digit
   * run after that `[cC]`, so a capture is a non-empty run of digits.
   */
  function MatchSegment(s: string): (r: Option<string>)
    ensures r.Some? ==> |r.value| > 0 && AllDigits(r.value)
  {
    match LastMark(s, |s|)
    case None => None
    case Some(q) =>
      if q < 2 || FirstTicketDash(s, 1, q - 1).None? then None
      else Some(s[q + 1..DigitRunEnd(s, q + 1)])
  }

  /** The matcher finds a match exactly when the regex has one. */
  lemma MatchSegmentComplete(s: string)
    requires NoBreak(s)
    ensures MatchSegment(s).Some? <==> Matches(s)
  {
    if Matches(s) {
      var a, b, e, q, f :| Decomp(s, a, b, e, q, f);
      assert IsMark(s, q);
      var q0 := LastMark(s, |s|).value;
      assert IsTicketDash(s, b);
    }
    if MatchSegment(s).Some? {
      var q := LastMark(s, |s|).value;
      var b := FirstTicketDash(s, 1, q - 1).value;
      var f := DigitRunEnd(s, q + 1);
      assert Decomp(s, b - 1, b, b + 2, q, f);
    }
  }

  /** What the matcher captures is the `testrun_id` of the greediest match. */
  lemma MatchSegmentCapture(s: string)
    requires NoBreak(s)
    requires MatchSegment(s).Some?
    ensures exists a, b, e, q, f ::
      Decomp(s, a, b, e, q, f) && Greediest(s, q, f) && MatchSegment(s).value == s[q + 1..f]
  {
    var q := LastMark(s, |s|).value;
    var b := FirstTicketDash(s, 1, q - 1).value;
    var f := DigitRunEnd(s, q + 1);
    assert Decomp(s, b - 1, b, b + 2, q, f);
    forall a', b', e', q', f' | Decomp(s, a', b', e', q', f')
      ensures q' < q || (q' == q && f' <= f)
    {
      assert IsMark(s, q');
    }
  }

  /** Index of the first "\n" in s, or |s|. */
  function LineBreak(s: string): (i: nat)
    ensures i <= |s| && NoBreak(s[..i])
    ensures i < |s| ==> s[i] == '\n'
    decreases |s|
  {
    if |s| == 0 || s[0] == '\n' then 0
    else
      var i := 1 + LineBreak(s[1..]);
      assert s[..i] == [s[0]] + s[1..][..i - 1];
      i
  }

  /** LineBreak finds the first "\n". */
  lemma {:induction false} LineBreakAt(s: string, i: nat)
    requires i <= |s| && NoBreak(s[..i])
    requires i < |s| ==> s[i] == '\n'
    ensures LineBreak(s) == i
    decreases |s|
  {
    if |s| > 0 && i > 0 {
      assert s[0] == s[..i][0];
      assert s[1..][..i - 1] == s[..i][1..];
      LineBreakAt(s[1..], i - 1);
    }
  }

  /** `line.match(TESTCASE_ID_REGEX)[:testrun_id]`: the leftmost match lies in the first segment that has one. */
  function MatchLine(line: string): Option<string>
    decreases |line|
  {
    var i := LineBreak(line);
    var m := MatchSegment(line[..i]);
    if m.Some? || i == |line| then m else MatchLine(line[i + 1..])
  }

  /** A line without a break is one segment; a trailing "\n", as `File.readlines` leaves it, changes nothing. */
  lemma MatchLineOneSegment(line: string)
    requires NoBreak(line)
    ensures MatchLine(line) == MatchSegment(line)
    ensures MatchLine(line + "\n") == MatchSegment(line)
  {
    assert line[..|line|] == line;
    LineBreakAt(line, |line|);
    var l' := line + "\n";
    assert l'[..|line|] == line;
    LineBreakAt(l', |line|);
    assert l'[|line| + 1..] == [];
    assert LineBreak([]) == 0;
  }

  /** Whatever a line yields is a non-empty digit string. */
  lemma {:induction false} MatchLineDigits(line: string)
    requires MatchLine(line).Some?
    ensures |MatchLine(line).value| > 0 && AllDigits(MatchLine(line).value)
    decreases |line|
  {
    var i := LineBreak(line);
    if MatchSegment(line[..i]).None? {
      MatchLineDigits(line[i + 1..]);
    }
  }

  /** `lines.map { |l| l.match(re) }.compact.first`, reduced to the capture. */
  function FirstMatch(lines: seq<string>): Option<string>
    decreases |lines|
  {
    if |lines| == 0 then None
    else if MatchLine(lines[0]).Some? then MatchLine(lines[0])
    else FirstMatch(lines[1..])
  }

  /** FirstMatch finds nothing exactly when no line matches, and otherwise the capture of the first line that does. */
  lemma {:induction false} FirstMatchSpec(lines: seq<string>)
    ensures FirstMatch(lines).None? <==> forall i :: 0 <= i < |lines| ==> MatchLine(lines[i]).None?
    ensures FirstMatch(lines).Some? ==>
      exists i :: 0 <= i < |lines| && MatchLine(lines[i]) == FirstMatch(lines)
        && forall j :: 0 <= j < i ==> MatchLine(lines[j]).None?
    decreases |lines|
  {
    if |lines| > 0 && MatchLine(lines[0]).None? {
      FirstMatchSpec(lines[1..]);
      assert forall i :: 1 <= i < |lines| ==> lines[i] == lines[1..][i - 1];
      if FirstMatch(lines).Some? {
        var i :| 0 <= i < |lines[1..]| && MatchLine(lines[1..][i]) == FirstMatch(lines)
          && forall j :: 0 <= j < i ==> MatchLine(lines[1..][j]).None?;
        assert MatchLine(lines[i + 1]) == FirstMatch(lines);
      }
    }
  }

  /** `testcase_id_from_beaker_script`; with no matching line `nil[:testrun_id]` raises. */
  function TestcaseIdFromBeakerScript(lines: seq<string>): (r: Result<string, Fault>)
    ensures r.Failure? <==> forall i :: 0 <= i < |lines| ==> MatchLine(lines[i]).None?
    ensures r.Failure? ==> r.error.NoMethodError?
  {
    FirstMatchSpec(lines);
    match FirstMatch(lines)
    case Some(id) => Success(id)
    case None => Failure(NilReceiver("[]"))
  }

  /** The id returned is the capture of the first matching line, a non-empty run of digits. */
  lemma TestcaseIdIsFirstCapture(lines: seq<string>)
    requires TestcaseIdFromBeakerScript(lines).Success?
    ensures var id := TestcaseIdFromBeakerScript(lines).value;
      && |id| > 0 && AllDigits(id)
      && exists i :: 0 <= i < |lines| && MatchLine(lines[i]) == Some(id)
           && forall j :: 0 <= j < i ==> MatchLine(lines[j]).None?
  {
    FirstMatchSpec(lines);
    var i :| 0 <= i < |lines| && MatchLine(lines[i]) == FirstMatch(lines);
    MatchLineDigits(lines[i]);
  }

  /** Lines after the first matching one never change the id. */
  lemma {:induction false} LaterLinesIgnored(lines: seq<string>, more: seq<string>)
    requires FirstMatch(lines).Some?
    ensures FirstMatch(lines + more) == FirstMatch(lines)
    decreases |lines|
  {
    var all := lines + more;
    assert all[0] == lines[0];
    if MatchLine(lines[0]).None? {
      assert all[1..] == lines[1..] + more;
      LaterLinesIgnored(lines[1..], more);
    }
  }

  /** A ticket token and a case number: "PROJ-1234 ... c5678" yields "5678". */
  lemma ExampleTicketThenCase(s: string)
    requires s == "PROJ-1234 ... c5678"
    ensures MatchSegment(s) == Some("5678")
  {
    assert IsMark(s, 14) && forall q :: 14 < q < |s| ==> !IsCaseMark(s[q]);
    assert LastMark(s, |s|) == Some(14);
    assert IsTicketDash(s, 4);
    assert forall k :: 15 <= k < |s| ==> IsDigit(s[k]);
    assert DigitRunEnd(s, 15) == 19;
    assert s[15..19] == "5678";
  }

  /** The greedy `.*` skips earlier case numbers: "BKR-12 c1 C345" yields "345". */
  lemma ExampleLastCaseWins(s: string)
    requires s == "BKR-12 c1 C345"
    ensures MatchSegment(s) == Some("345")
  {
    assert IsMark(s, 10) && forall q :: 10 < q < |s| ==> !IsCaseMark(s[q]);
    assert LastMark(s, |s|) == Some(10);
    assert IsTicketDash(s, 3);
    assert forall k :: 11 <= k < |s| ==> IsDigit(s[k]);
    assert DigitRunEnd(s, 11) == 14;
    assert s[11..14] == "345";
  }

  /** A case number with no ticket token before it does not match: "c5678 PROJ-1" yields nothing. */
  lemma ExampleCaseBeforeTicket(s: string)
    requires s == "c5678 PROJ-1"
    ensures MatchSegment(s) == None
  {
    assert IsMark(s, 0) && forall q :: 0 < q < |s| ==> !IsCaseMark(s[q]);
    assert LastMark(s, |s|) == Some(0);
  }
}
