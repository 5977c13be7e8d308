/**
 * The JUnit report as the importer sees it once Nokogiri has parsed it, and
 * the three XPath filters of `load_junit_results` that split its
 * `<testcase>` elements into failures, skips and passes.
 */
module Junit {
  import opened Wrappers

  /**
   * One `<testcase>` element, in document order.
   *   failures  — the `message` attribute of each `<failure>` child
   *               (None where the attribute is absent)
   *   hasSkip   — whether it has a `<skip>` child
   *   systemOut — the text of each `<system-out>` child
   *   time      — the `time` attribute, already read as a number
   */
  datatype TestCase = TestCase(
    name: string,
    classname: string,
    time: real,
    failures: seq<Option<string>>,
    hasSkip: bool,
    systemOut: seq<string>)

  /** The hash `{failures:, skips:, passes:}` returned by `load_junit_results`. */
  datatype JunitResults = JunitResults(
    failures: seq<TestCase>,
    skips: seq<TestCase>,
    passes: seq<TestCase>)

  /** `testcase[failure]` */
  predicate HasFailure(t: TestCase) { |t.failures| > 0 }

  /** `testcase[skip]` */
  predicate HasSkip(t: TestCase) { t.hasSkip }

  /** `testcase[not(failure) and not(skip)]` */
  predicate IsPass(t: TestCase) { !HasFailure(t) && !HasSkip(t) }

  /** A test case that both XPath filters `[failure]` and `[skip]` select. */
  predicate HasBoth(t: TestCase) { HasFailure(t) && HasSkip(t) }

  /** The elements of `s` that satisfy `p`, in their order in `s`. */
  function Filter<T(!new)>(s: seq<T>, p: T -> bool): (r: seq<T>)
    ensures |r| <= |s|
    ensures forall x :: x in r <==> x in s && p(x)
    decreases |s|
  {
    if |s| == 0 then []
    else
      var rest := Filter(s[..|s| - 1], p);
      var last := s[|s| - 1];
      assert s == s[..|s| - 1] + [last];
      if p(last) then rest + [last] else rest
  }

  /** `load_junit_results`: three independent filters over the document. */
  function LoadJunitResults(doc: seq<TestCase>): (r: JunitResults)
    ensures forall t :: t in r.failures <==> t in doc && HasFailure(t)
    ensures forall t :: t in r.skips <==> t in doc && HasSkip(t)
    ensures forall t :: t in r.passes <==> t in doc && !HasFailure(t) && !HasSkip(t)
  {
    JunitResults(Filter(doc, HasFailure), Filter(doc, HasSkip), Filter(doc, IsPass))
  }

  /** Filtering a concatenation filters each part: the filter keeps document order. */
  lemma {:induction false} FilterAppend<T(!new)>(a: seq<T>, b: seq<T>, p: T -> bool)
    ensures Filter(a + b, p) == Filter(a, p) + Filter(b, p)
    decreases |b|
  {
    if |b| == 0 {
      assert a + b == a;
    } else {
      var b' := b[..|b| - 1];
      assert (a + b)[..|a + b| - 1] == a + b';
      assert (a + b)[|a + b| - 1] == b[|b| - 1];
      FilterAppend(a, b', p);
    }
  }

  /** A one-element document is kept exactly when it satisfies the filter. */
  lemma FilterSingleton<T(!new)>(x: T, p: T -> bool)
    ensures Filter([x], p) == if p(x) then [x] else []
  {
    assert [x][..0] == [];
  }

  /** Each element keeps all of its occurrences when selected, and none otherwise. */
  lemma {:induction false} FilterMultiplicity<T(!new)>(s: seq<T>, p: T -> bool, x: T)
    ensures multiset(Filter(s, p))[x] == if p(x) then multiset(s)[x] else 0
    decreases |s|
  {
    if |s| > 0 {
      var s' := s[..|s| - 1];
      assert s == s' + [s[|s| - 1]];
      FilterMultiplicity(s', p, x);
    }
  }

  /** `r[k]` is `s[idx[k]]`, at strictly increasing positions `idx`. */
  ghost predicate SelectedAt<T>(s: seq<T>, r: seq<T>, idx: seq<nat>) {
    && |idx| == |r|
    && (forall k :: 0 <= k < |idx| ==> idx[k] < |s| && s[idx[k]] == r[k])
    && (forall k, l :: 0 <= k < l < |idx| ==> idx[k] < idx[l])
  }

  /**
   * The i-th element selected is the document's element at some index, and
   * selected elements appear at strictly increasing document positions.
   */
  lemma {:induction false} FilterIsSubsequence<T(!new)>(s: seq<T>, p: T -> bool)
    ensures exists idx: seq<nat> :: SelectedAt(s, Filter(s, p), idx)
    decreases |s|
  {
    if |s| == 0 {
      assert SelectedAt(s, Filter(s, p), []);
    } else {
      var s', last := s[..|s| - 1], s[|s| - 1];
      var r' := Filter(s', p);
      FilterIsSubsequence(s', p);
      var idx: seq<nat> :| SelectedAt(s', r', idx);
      assert forall k :: 0 <= k < |idx| ==> s[idx[k]] == s'[idx[k]];
      if p(last) {
        assert Filter(s, p) == r' + [last];
        SelectedSnoc(s, r', idx, last);
      } else {
        assert Filter(s, p) == r';
        assert SelectedAt(s, r', idx);
      }
    }
  }

  /** Selecting the document's last element extends the positions by its index. */
  lemma SelectedSnoc<T>(s: seq<T>, r: seq<T>, idx: seq<nat>, last: T)
    requires |s| > 0 && last == s[|s| - 1]
    requires SelectedAt(s, r, idx) && forall k :: 0 <= k < |idx| ==> idx[k] < |s| - 1
    ensures SelectedAt(s, r + [last], idx + [|s| - 1])
  {
  }

  /**
   * The three groups cover the document: every test case is in at least one
   * group, `passes` shares no test case with the other two, and a test case is
   * in both `failures` and `skips` exactly when it has both children.
   */
  lemma Classification(doc: seq<TestCase>)
    ensures var r := LoadJunitResults(doc);
      && (forall t :: t in doc ==> t in r.failures || t in r.skips || t in r.passes)
      && (forall t :: t in r.passes ==> t !in r.failures && t !in r.skips)
      && (forall t :: t in r.failures && t in r.skips <==> t in doc && HasBoth(t))
  {
  }

  /** Each group is the document restricted to its filter, in document order. */
  lemma GroupsKeepOrder(a: seq<TestCase>, b: seq<TestCase>)
    ensures var r := LoadJunitResults(a + b);
      var ra := LoadJunitResults(a);
      var rb := LoadJunitResults(b);
      && r.failures == ra.failures + rb.failures
      && r.skips == ra.skips + rb.skips
      && r.passes == ra.passes + rb.passes
  {
    FilterAppend(a, b, HasFailure);
    FilterAppend(a, b, HasSkip);
    FilterAppend(a, b, IsPass);
  }

  /**
   * Counting: the groups together hold every test case once, plus once more
   * for each test case that has both a failure and a skip child.
   */
  lemma {:induction false} GroupSizes(doc: seq<TestCase>)
    ensures var r := LoadJunitResults(doc);
      |r.failures| + |r.skips| + |r.passes| == |doc| + |Filter(doc, HasBoth)|
    decreases |doc|
  {
    if |doc| > 0 {
      GroupSizes(doc[..|doc| - 1]);
    }
  }
}
