/**
 * `beaker_test_path`: the beaker script's path is
 * `File.join(File.dirname(junit_file), "../../", classname, name)`.
 * `File.dirname` and `File.join` are modelled on Ruby's own definitions
 * for '/'-separated paths.
 */
module Paths {
  import opened Wrappers

  /** Number of '/' at the start of s (Ruby's `skiproot`). */
  function LeadingSeparators(s: string): (n: nat)
    ensures n <= |s|
    ensures forall k :: 0 <= k < n ==> s[k] == '/'
    ensures n < |s| ==> s[n] != '/'
    decreases |s|
  {
    if |s| > 0 && s[0] == '/' then 1 + LeadingSeparators(s[1..]) else 0
  }

  /** Where the run of '/' that ends s begins, or |s| if s does not end in '/' (Ruby's `chompdirsep`). */
  function TrailingStart(s: string): (t: nat)
    ensures t <= |s|
    ensures forall k :: t <= k < |s| ==> s[k] == '/'
    ensures t > 0 ==> s[t - 1] != '/'
    decreases |s|
  {
    if |s| > 0 && s[|s| - 1] == '/' then TrailingStart(s[..|s| - 1]) else |s|
  }

  /** The last '/' in s[lo..hi]. */
  function LastSeparator(s: string, lo: nat, hi: nat): (r: Option<nat>)
    requires hi <= |s|
    ensures r.Some? ==> lo <= r.value < hi && s[r.value] == '/'
    ensures r.Some? ==> forall k :: r.value < k < hi ==> s[k] != '/'
    ensures r.None? ==> forall k :: lo <= k < hi ==> s[k] != '/'
    decreases hi
  {
    if hi <= lo then None
    else if s[hi - 1] == '/' then Some(hi - 1)
    else LastSeparator(s, lo, hi - 1)
  }

  /** The first index of the run of '/' that contains k, looking no further left than lo. */
  function RunStart(s: string, k: nat, lo: nat): (j: nat)
    requires lo <= k < |s| && s[k] == '/'
    ensures lo <= j <= k
    ensures forall m :: j <= m <= k ==> s[m] == '/'
    ensures j == lo || s[j - 1] != '/'
    decreases k
  {
    if k > lo && s[k - 1] == '/' then RunStart(s, k - 1, lo) else k
  }

  /**
   * `File.dirname`: leading '/'s collapse to one, trailing '/'s are ignored,
   * and the result is everything before the last remaining run of '/'; "."
   * when there is no '/' to cut at.
   */
  function Dirname(s: string): (d: string)
    ensures |d| > 0
    ensures (forall k :: 0 <= k < |s| ==> s[k] != '/') ==> d == "."
    ensures d[|d| - 1] == '/' ==> d == "/"
  {
    var root := LeadingSeparators(s);
    var start := if root > 1 then root - 1 else 0;
    var p := CutPoint(s);
    if p == start then "."
    else if p == root then
      assert s[start..p] == [s[root - 1]] == "/";
      "/"
    else s[start..p]
  }

  /**
   * Where `File.dirname` cuts: the start of the last run of '/' that is
   * neither the root nor trailing, or the end of the root when there is none.
   */
  function CutPoint(s: string): (p: nat)
    ensures LeadingSeparators(s) <= p <= |s|
    ensures p == LeadingSeparators(s) || s[p - 1] != '/'
  {
    var root := LeadingSeparators(s);
    var t := TrailingStart(s);
    if t <= root then root
    else match LastSeparator(s, root, t)
      case Some(k) => RunStart(s, k, root)
      case None => root
  }

  /** The count of leading '/' is fixed by where the first other character stands. */
  lemma LeadingSeparatorsAt(s: string, n: nat)
    requires n < |s| && s[n] != '/'
    requires forall k :: 0 <= k < n ==> s[k] == '/'
    ensures LeadingSeparators(s) == n
  {
  }

  /** Dirname cuts at the last inner run of '/' when that run starts past the root. */
  lemma DirnameCut(s: string, n: nat, c: nat)
    requires n <= 1 && LeadingSeparators(s) == n
    requires TrailingStart(s) == |s|
    requires n < c < |s| && LastSeparator(s, n, |s|) == Some(c) && s[c - 1] != '/'
    ensures Dirname(s) == s[..c]
  {
    assert RunStart(s, c, n) == c;
    assert CutPoint(s) == c;
  }

  /** The last '/' in s[lo..hi] is fixed by where it stands. */
  lemma LastSeparatorAt(s: string, lo: nat, hi: nat, c: nat)
    requires lo <= c < hi <= |s| && s[c] == '/'
    requires forall k :: c < k < hi ==> s[k] != '/'
    ensures LastSeparator(s, lo, hi) == Some(c)
  {
  }

  /**
   * A path with at most one leading '/', no trailing '/', and only one '/'
   * past its root, standing alone at c: its directory is s[..c].
   */
  lemma DirnameOneCut(s: string, n: nat, c: nat)
    requires n <= 1 && n < c < |s| - 1
    requires forall k :: 0 <= k < n ==> s[k] == '/'
    requires s[n] != '/' && s[c - 1] != '/' && s[c] == '/' && s[|s| - 1] != '/'
    requires forall k :: c < k < |s| ==> s[k] != '/'
    ensures Dirname(s) == s[..c]
  {
    LeadingSeparatorsAt(s, n);
    assert TrailingStart(s) == |s|;
    LastSeparatorAt(s, n, |s|, c);
    DirnameCut(s, n, c);
  }

  /** The shape of "d/f": d, then its only separator past d's root, then f. */
  lemma ChildShape(d: string, f: string)
    requires |d| > 0 && d[|d| - 1] != '/' && LeadingSeparators(d) <= 1
    requires |f| > 0 && '/' !in f
    ensures var s, n := d + "/" + f, LeadingSeparators(d);
      && n <= 1 && n < |d| < |s| - 1
      && (forall k :: 0 <= k < n ==> s[k] == '/')
      && s[n] != '/' && s[|d| - 1] != '/' && s[|d|] == '/' && s[|s| - 1] != '/'
      && (forall k :: |d| < k < |s| ==> s[k] != '/')
      && s[..|d|] == d
  {
    var s := d + "/" + f;
    assert s[..|d|] == d;
    assert s[|d| + 1..] == f;
    forall k | |d| < k < |s| ensures s[k] != '/' {
      assert s[k] == s[|d| + 1..][k - |d| - 1];
    }
  }

  /**
   * The directory of "d/f" is d, for a file name f without '/' and a
   * non-empty directory d with at most one leading '/' and no trailing '/'.
   */
  lemma DirnameOfChild(d: string, f: string)
    requires |d| > 0 && d[|d| - 1] != '/' && LeadingSeparators(d) <= 1
    requires |f| > 0 && '/' !in f
    ensures Dirname(d + "/" + f) == d
  {
    ChildShape(d, f);
    DirnameOneCut(d + "/" + f, LeadingSeparators(d), |d|);
  }

  /** One step of `File.join`: append part to acc with exactly the separators Ruby keeps. */
  function JoinTwo(acc: string, part: string): string {
    var tail := TrailingStart(acc);
    if |part| > 0 && part[0] == '/' then acc[..tail] + part
    else if tail == |acc| then acc + "/" + part
    else acc + part
  }

  /**
   * The joint: acc without its trailing '/'s, then only '/'s, then part
   * unchanged, with at least one '/' where they meet.
   */
  lemma JoinTwoJoint(acc: string, part: string)
    ensures var r := JoinTwo(acc, part);
      var tail := TrailingStart(acc);
      && |r| >= tail + |part|
      && r[..tail] == acc[..tail]
      && r[|r| - |part|..] == part
      && (forall k :: tail <= k < |r| - |part| ==> r[k] == '/')
      && (|r| - |part| > tail || (|part| > 0 && part[0] == '/'))
  {
  }

  /** `File.join(*parts)`. */
  function FileJoin(parts: seq<string>): string
    decreases |parts|
  {
    if |parts| == 0 then ""
    else if |parts| == 1 then parts[0]
    else JoinTwo(FileJoin(parts[..|parts| - 1]), parts[|parts| - 1])
  }

  /** Two levels up from the JUnit report's directory, as `beaker_test_path` assumes. */
  const Ascent := "../../"

  /** `beaker_test_path(junit_file_path, junit_result)` */
  function BeakerTestPath(junitFile: string, classname: string, name: string): string {
    FileJoin([Dirname(junitFile), Ascent, classname, name])
  }

  /** Joining a part that does not start with '/' after one that does not end in '/' inserts exactly one '/'. */
  lemma JoinTwoInsertsSeparator(acc: string, part: string)
    requires |acc| > 0 && acc[|acc| - 1] != '/'
    requires |part| == 0 || part[0] != '/'
    ensures JoinTwo(acc, part) == acc + "/" + part
  {
    assert TrailingStart(acc) == |acc|;
  }

  /** Joining a part that does not start with '/' after one that ends in '/' adds no separator of its own. */
  lemma JoinTwoAfterSeparator(acc: string, part: string)
    requires |acc| > 0 && acc[|acc| - 1] == '/'
    requires |part| == 0 || part[0] != '/'
    ensures JoinTwo(acc, part) == acc + part
  {
    assert TrailingStart(acc) < |acc|;
  }

  /** `File.join` folds from the left: one more part is one more joint. */
  lemma FileJoinSnoc(parts: seq<string>, part: string)
    requires |parts| > 0
    ensures FileJoin(parts + [part]) == JoinTwo(FileJoin(parts), part)
  {
    assert (parts + [part])[..|parts|] == parts;
  }

  lemma FileJoinFour(a: string, b: string, c: string, d: string)
    ensures FileJoin([a, b, c, d]) == JoinTwo(JoinTwo(JoinTwo(a, b), c), d)
  {
    assert FileJoin([a]) == a;
    FileJoinSnoc([a], b);
    assert [a] + [b] == [a, b];
    FileJoinSnoc([a, b], c);
    assert [a, b] + [c] == [a, b, c];
    FileJoinSnoc([a, b, c], d);
    assert [a, b, c] + [d] == [a, b, c, d];
  }

  /** A joined path ends with its last part. */
  lemma BeakerTestPathEndsWithName(junitFile: string, classname: string, name: string)
    ensures var p := BeakerTestPath(junitFile, classname, name);
      |p| >= |name| && p[|p| - |name|..] == name
  {
    FileJoinFour(Dirname(junitFile), Ascent, classname, name);
    JoinTwoJoint(JoinTwo(JoinTwo(Dirname(junitFile), Ascent), classname), name);
  }

  /**
   * For a relative classname and a plain test name, the script path is the
   * report's directory, then "../../", then the classname, then the name.
   */
  lemma BeakerTestPathLayout(junitFile: string, classname: string, name: string)
    requires |classname| > 0 && classname[0] != '/' && classname[|classname| - 1] != '/'
    requires |name| > 0 && name[0] != '/'
    ensures var d := Dirname(junitFile);
      BeakerTestPath(junitFile, classname, name)
        == d + (if d == "/" then "" else "/") + Ascent + classname + "/" + name
  {
    var d := Dirname(junitFile);
    FileJoinFour(d, Ascent, classname, name);
    JoinLayout(d, classname, name);
  }

  /** The joints of `beaker_test_path` for a directory that ends in '/' only when it is the root. */
  lemma JoinLayout(d: string, classname: string, name: string)
    requires |d| > 0 && (d[|d| - 1] == '/' ==> d == "/")
    requires |classname| > 0 && classname[0] != '/' && classname[|classname| - 1] != '/'
    requires |name| > 0 && name[0] != '/'
    ensures JoinTwo(JoinTwo(JoinTwo(d, Ascent), classname), name)
      == d + (if d == "/" then "" else "/") + Ascent + classname + "/" + name
  {
    var x := d + (if d == "/" then "" else "/") + Ascent;
    if d == "/" {
      JoinTwoAfterSeparator(d, Ascent);
    } else {
      JoinTwoInsertsSeparator(d, Ascent);
    }
    assert JoinTwo(d, Ascent) == x;
    JoinTwoAfterSeparator(x, classname);
    var y := x + classname;
    assert y[|y| - 1] == classname[|classname| - 1];
    JoinTwoInsertsSeparator(y, name);
  }

  /** `File.dirname("~/junit/latest/beaker_junit.xml")` is "~/junit/latest". */
  lemma DirnameExample(junitFile: string)
    requires junitFile == "~/junit/latest/beaker_junit.xml"
    ensures Dirname(junitFile) == "~/junit/latest"
  {
    var dir, file := "~/junit/latest", "beaker_junit.xml";
    assert LeadingSeparators(dir) == 0;
    assert '/' !in file;
    assert dir + "/" + file == junitFile;
    DirnameOfChild(dir, file);
  }

  /** The documented layout: a report in "~/junit/latest" and its scripts two levels up. */
  lemma BeakerTestPathExample(junitFile: string, classname: string, name: string)
    requires junitFile == "~/junit/latest/beaker_junit.xml"
    requires classname == "tests" && name == "t.rb"
    ensures BeakerTestPath(junitFile, classname, name) == "~/junit/latest/../../tests/t.rb"
  {
    var dir := "~/junit/latest";
    assert dir + "/" + Ascent + classname + "/" + name == "~/junit/latest/../../tests/t.rb";
    DirnameExample(junitFile);
    assert dir != "/";
    BeakerTestPathLayout(junitFile, classname, name);
  }
}
