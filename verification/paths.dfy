/** POSIX path handling as Python's `os.path` does it on POSIX systems:
    joining two components, and splitting a path into its directory and its
    final component, which serve as the partners of joining. */
module Paths {
  import opened Results

  const Sep: char := '/'

  /** `os.path.join(a, b)`: an absolute `b` replaces `a`; otherwise `b` is
      appended to `a`, with one separator added unless `a` is empty or
      already ends in one. */
  function Join(a: string, b: string): (r: string)
    ensures |b| <= |r| && r[|r| - |b|..] == b
    ensures |b| > 0 && b[0] == Sep ==> r == b
    ensures !(|b| > 0 && b[0] == Sep) ==> a <= r && |r| <= |a| + 1 + |b|
  {
    if |b| > 0 && b[0] == Sep then b
    else if a == "" || a[|a| - 1] == Sep then a + b
    else a + [Sep] + b
  }

  /** The last position of `c` in `s`, if any. */
  function LastIndexOf(s: string, c: char): (r: Option<nat>)
    ensures r.Some? ==> r.value < |s| && s[r.value] == c && c !in s[r.value + 1..]
    ensures r.None? ==> c !in s
    decreases |s|
  {
    if s == [] then None
    else if s[|s| - 1] == c then Some(|s| - 1)
    else LastIndexOf(s[..|s| - 1], c)
  }

  /** `os.path.basename(p)`: everything after the last separator. */
  function Basename(p: string): (r: string)
    ensures Sep !in r
    ensures |r| <= |p| && p[|p| - |r|..] == r
  {
    match LastIndexOf(p, Sep)
    case None => p
    case Some(i) => p[i + 1..]
  }

  /** `s` with all trailing separators removed. */
  function TrimTrailingSeps(s: string): (r: string)
    ensures r <= s
    ensures r == [] || r[|r| - 1] != Sep
    ensures forall i :: |r| <= i < |s| ==> s[i] == Sep
    decreases |s|
  {
    if s != [] && s[|s| - 1] == Sep then TrimTrailingSeps(s[..|s| - 1]) else s
  }

  /** A directory path as `os.path.dirname` reports it: without trailing
      separators, unless it consists of separators only. */
  function NormalDir(a: string): (r: string)
    ensures r <= a
    ensures r == a || (r != [] && r[|r| - 1] != Sep)
  {
    var trimmed := TrimTrailingSeps(a);
    if trimmed == [] then a else trimmed
  }

  /** `os.path.dirname(p)`: everything up to the last separator, as a
      directory path. */
  function Dirname(p: string): string
  {
    var head := match LastIndexOf(p, Sep)
      case None => ""
      case Some(i) => p[..i + 1];
    NormalDir(head)
  }

  /** Joining a final component that holds no separator: the final component
      of the result is that component again. */
  lemma BasenameOfJoin(a: string, b: string)
    requires Sep !in b
    ensures Basename(Join(a, b)) == b
  {
    var r := Join(a, b);
    var k := |r| - |b|;
    assert r[k..] == b;
    if k > 0 {
      assert r[k - 1] == Sep by {
        if a != "" && a[|a| - 1] == Sep {
          assert r == a + b;
          assert r[|a| - 1] == a[|a| - 1];
        }
      }
      var head := r[..k];
      assert r == head + b;
      LastSepBefore(head, b);
    } else {
      assert r == b;
    }
  }

  /** A position holding `c` with no `c` after it is the last position of `c`. */
  lemma {:induction false} LastIndexOfIs(s: string, c: char, i: nat)
    requires i < |s| && s[i] == c
    requires forall j :: i < j < |s| ==> s[j] != c
    ensures LastIndexOf(s, c) == Some(i)
    decreases |s|
  {
    if i < |s| - 1 {
      var init := s[..|s| - 1];
      assert s[|s| - 1] != c;
      assert forall j :: i < j < |init| ==> init[j] == s[j];
      LastIndexOfIs(init, c, i);
    }
  }

  /** A separator that ends `p` is the last separator of `p` followed by a
      separator-free component. */
  lemma LastSepBefore(p: string, b: string)
    requires p != [] && p[|p| - 1] == Sep
    requires Sep !in b
    ensures LastIndexOf(p + b, Sep) == Some(|p| - 1)
  {
    var s := p + b;
    forall j | |p| - 1 < j < |s|
      ensures s[j] != Sep
    {
      assert s[j] == b[j - |p|];
    }
    LastIndexOfIs(s, Sep, |p| - 1);
  }

  lemma DirnameOfJoinAfterSep(a: string, b: string)
    requires a != [] && a[|a| - 1] == Sep
    requires Sep !in b
    ensures Dirname(a + b) == NormalDir(a)
  {
    LastSepBefore(a, b);
    assert (a + b)[..|a|] == a;
  }

  lemma DirnameOfJoinAddingSep(a: string, b: string)
    requires a != [] && a[|a| - 1] != Sep
    requires Sep !in b
    ensures Dirname(a + [Sep] + b) == NormalDir(a)
  {
    var p := a + [Sep];
    assert a + [Sep] + b == p + b;
    LastSepBefore(p, b);
    assert (p + b)[..|p|] == p;
    assert p[..|a|] == a;
    assert TrimTrailingSeps(p) == TrimTrailingSeps(a) == a;
  }

  /** Joining a separator-free component onto any directory: the directory of
      the result is that directory, as `os.path.dirname` reports it (trailing
      separators dropped). */
  lemma DirnameOfJoin(a: string, b: string)
    requires Sep !in b
    ensures Dirname(Join(a, b)) == NormalDir(a)
  {
    if a == "" {
      assert Join(a, b) == b;
      assert LastIndexOf(b, Sep).None?;
    } else if a[|a| - 1] == Sep {
      DirnameOfJoinAfterSep(a, b);
    } else {
      DirnameOfJoinAddingSep(a, b);
    }
  }
}
