/**
 * The parts of Python's `posixpath` the enumerator relies on: `basename`,
 * `dirname` and `join`, on '/'-separated strings.
 */
module PosixPath {

  /**
   * `os.path.basename`: the text after the last '/' (all of p when it has none).
   * The ensures say b is the longest suffix of p without a '/'.
   */
  function Basename(p: string): (b: string)
    ensures '/' !in b
    ensures |b| <= |p| && p[|p| - |b|..] == b
    ensures |b| < |p| ==> p[|p| - |b| - 1] == '/'
  {
    if p == [] || p[|p| - 1] == '/' then []
    else Basename(p[..|p| - 1]) + [p[|p| - 1]]
  }

  /** Whether s consists of '/' characters only. */
  predicate AllSlashes(s: string) {
    forall i :: 0 <= i < |s| ==> s[i] == '/'
  }

  /** `str.rstrip('/')`. */
  function RStripSlashes(s: string): (r: string)
    ensures |r| <= |s| && s[..|r|] == r
    ensures r == [] || r[|r| - 1] != '/'
    ensures forall i :: |r| <= i < |s| ==> s[i] == '/'
  {
    if s != [] && s[|s| - 1] == '/' then RStripSlashes(s[..|s| - 1]) else s
  }

  /**
   * `os.path.dirname`: everything before the basename, with trailing slashes
   * removed unless that text is nothing but slashes.
   */
  function Dirname(p: string): string {
    var head := p[..|p| - |Basename(p)|];
    if head != [] && !AllSlashes(head) then RStripSlashes(head) else head
  }

  /** `os.path.join(a, b)` for two components. */
  function Join(a: string, b: string): string {
    if |b| > 0 && b[0] == '/' then b
    else if a == [] || a[|a| - 1] == '/' then a + b
    else a + "/" + b
  }

  /** Joining a directory and a plain component is undone by basename and dirname. */
  lemma BasenameDirnameOfJoin(dir: string, c: string)
    requires dir != [] && dir[|dir| - 1] != '/'
    requires '/' !in c
    ensures Join(dir, c) == dir + "/" + c
    ensures Basename(Join(dir, c)) == c
    ensures Dirname(Join(dir, c)) == dir
  {
    var p := dir + "/" + c;
    assert c != [] ==> c[0] in c;
    BasenameOfSuffix(dir + "/", c);
    var head := p[..|p| - |c|];
    assert head == dir + "/";
    assert !AllSlashes(head) by { assert head[|dir| - 1] != '/'; }
    assert head[..|dir|] == dir;
    assert RStripSlashes(head) == RStripSlashes(dir);
  }

  /** The basename of a path ending in '/' followed by a slash-free c is c. */
  lemma {:induction false} BasenameOfSuffix(d: string, c: string)
    requires d != [] && d[|d| - 1] == '/'
    requires '/' !in c
    ensures Basename(d + c) == c
    decreases |c|
  {
    var p := d + c;
    if c == [] {
      assert p == d;
    } else {
      assert p[..|p| - 1] == d + c[..|c| - 1];
      assert c[|c| - 1] in c;
      BasenameOfSuffix(d, c[..|c| - 1]);
      assert c[..|c| - 1] + [c[|c| - 1]] == c;
    }
  }
}
