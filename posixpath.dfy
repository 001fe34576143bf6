/** The two POSIX path operations `create_app` uses to locate the
    package's `default.cfg`: `os.path.dirname` and `os.path.join`. */
module PosixPath {

  /** The index of the last `/` in `s`, or -1 (`str.rfind`). */
  function RFindSlash(s: string): (i: int)
    ensures -1 <= i < |s|
    ensures 0 <= i ==> s[i] == '/'
    ensures forall j :: i < j < |s| ==> s[j] != '/'
    decreases |s|
  {
    if s == [] then -1
    else if s[|s| - 1] == '/' then |s| - 1
    else RFindSlash(s[..|s| - 1])
  }

  predicate AllSlashes(s: string) { forall j :: 0 <= j < |s| ==> s[j] == '/' }

  /** `s.rstrip('/')`. */
  function RStripSlashes(s: string): (r: string)
    ensures |r| <= |s| && r == s[..|r|]
    ensures r == [] || r[|r| - 1] != '/'
    ensures forall j :: |r| <= j < |s| ==> s[j] == '/'
    decreases |s|
  {
    if s != [] && s[|s| - 1] == '/' then RStripSlashes(s[..|s| - 1]) else s
  }

  /** `posixpath.dirname(p)`: everything up to the last `/`, with trailing
      slashes dropped unless the head consists of slashes only. */
  function Dirname(p: string): (d: string)
    ensures |d| <= |p| && d == p[..|d|]
    ensures '/' !in p ==> d == []
    ensures '/' in p ==> d != []
  {
    var head := p[..RFindSlash(p) + 1];
    if head != [] && !AllSlashes(head) then RStripSlashes(head) else head
  }

  /** `posixpath.join(a, b)` for two components. */
  function Join(a: string, b: string): (r: string)
    ensures |b| > 0 && b[0] == '/' ==> r == b
    ensures !(|b| > 0 && b[0] == '/') ==> r == a + b || r == a + "/" + b
    ensures a != [] && a[|a| - 1] != '/' && !(|b| > 0 && b[0] == '/') ==> r == a + "/" + b
    ensures (a == [] || a[|a| - 1] == '/') && !(|b| > 0 && b[0] == '/') ==> r == a + b
  {
    if |b| > 0 && b[0] == '/' then b
    else if a == [] || a[|a| - 1] == '/' then a + b
    else a + "/" + b
  }

  /** The directory of `dir/base` is `dir` when `base` is a single name
      and `dir` is non-empty without a trailing slash. */
  lemma DirnameOfChild(dir: string, base: string)
    requires dir != [] && dir[|dir| - 1] != '/'
    requires '/' !in base
    ensures Dirname(dir + "/" + base) == dir
  {
    var p := dir + "/" + base;
    assert p[|dir|] == '/';
    assert forall j :: |dir| < j < |p| ==> p[j] == base[j - |dir| - 1];
    var i := RFindSlash(p);
    assert i == |dir|;
    var head := p[..i + 1];
    assert head == dir + "/";
    assert head[|dir| - 1] == dir[|dir| - 1];
    assert !AllSlashes(head);
    var r := RStripSlashes(head);
    assert head[|dir| - 1] != '/' && head[|dir|] == '/';
    assert |r| == |dir|;
    assert head[..|dir|] == dir;
  }
}
