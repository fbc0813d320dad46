/**
 * POSIX path manipulation as `os.path` does it on Linux (`posixpath`):
 * `splitext`, `dirname`, `basename` and `join`, as pure string functions.
 */
module Paths {

  /** `s.rfind(c)`: the last index holding `c`, or -1. */
  function RFind(s: string, c: char): (i: int)
    ensures -1 <= i < |s|
    ensures i >= 0 ==> s[i] == c
    ensures forall j :: i < j < |s| ==> s[j] != c
    decreases |s|
  {
    if s == [] then -1
    else if s[|s| - 1] == c then |s| - 1
    else RFind(s[..|s| - 1], c)
  }

  /** Searching a suffix finds the same occurrence, shifted, or none. */
  lemma RFindSuffix(s: string, c: char, k: nat)
    requires k <= |s|
    ensures RFind(s[k..], c) == if RFind(s, c) >= k then RFind(s, c) - k else -1
  {
    var r, r' := RFind(s, c), RFind(s[k..], c);
    if r' >= 0 {
      assert s[k + r'] == c;
    }
    if r >= k {
      assert s[k..][r - k] == c;
    }
  }

  predicate HasNonDot(s: string, lo: int, hi: int)
    requires 0 <= lo <= hi <= |s|
  {
    exists j :: lo <= j < hi && s[j] != '.'
  }

  /**
   * `os.path.splitext(p)`: the extension starts at the last dot after the
   * last slash, provided the file name holds something other than dots
   * before it; otherwise the extension is empty.
   */
  function SplitExt(p: string): (r: (string, string))
    ensures r.0 + r.1 == p
    ensures r.1 == [] || (r.1[0] == '.' && forall i :: 0 < i < |r.1| ==> r.1[i] != '.' && r.1[i] != '/')
  {
    var sep := RFind(p, '/');
    var dot := RFind(p, '.');
    if dot > sep && HasNonDot(p, sep + 1, dot) then
      assert forall i :: 0 < i < |p[dot..]| ==> p[dot..][i] == p[dot + i];
      (p[..dot], p[dot..])
    else (p, [])
  }

  function Ext(p: string): string { SplitExt(p).1 }

  function Stem(p: string): string { SplitExt(p).0 }

  /** `os.path.basename(p)`: everything after the last slash. */
  function BaseName(p: string): (b: string)
    ensures forall i :: 0 <= i < |b| ==> b[i] != '/'
  {
    var i := RFind(p, '/') + 1;
    assert forall j :: 0 <= j < |p[i..]| ==> p[i..][j] == p[i + j];
    p[i..]
  }

  predicate AllSlashes(s: string) {
    forall i :: 0 <= i < |s| ==> s[i] == '/'
  }

  function RStripSlashes(s: string): string {
    if s != [] && s[|s| - 1] == '/' then RStripSlashes(s[..|s| - 1]) else s
  }

  /**
   * `os.path.dirname(p)`: everything up to the last slash, with trailing
   * slashes removed unless the head is made of slashes only.
   */
  function DirName(p: string): string {
    var i := RFind(p, '/') + 1;
    var head := p[..i];
    if head != [] && !AllSlashes(head) then RStripSlashes(head) else head
  }

  /** `os.path.join(a, b)`: an absolute `b` replaces `a`; otherwise one slash separates them. */
  function Join(a: string, b: string): string {
    if b != [] && b[0] == '/' then b
    else if a == [] || a[|a| - 1] == '/' then a + b
    else a + "/" + b
  }

  /** No two slashes in a row: the path is in the form `os.path.normpath` gives. */
  predicate NoDoubleSlash(p: string) {
    forall j :: 0 <= j < |p| - 1 ==> !(p[j] == '/' && p[j + 1] == '/')
  }

  /** Joining a path's directory and base name gives the path back. */
  lemma JoinDirBase(p: string)
    requires NoDoubleSlash(p)
    ensures Join(DirName(p), BaseName(p)) == p
  {
    var i := RFind(p, '/') + 1;
    var head, base := p[..i], p[i..];
    assert base == BaseName(p);
    if i == 0 {
      assert DirName(p) == [];
      assert base == p;
    } else if i == 1 {
      assert head == "/" && AllSlashes(head);
      assert DirName(p) == "/";
    } else {
      assert p[i - 1] == '/';
      assert p[i - 2] != '/';
      assert head[i - 2] != '/';
      assert !AllSlashes(head);
      assert head[..i - 1] == p[..i - 1];
      assert RStripSlashes(head) == p[..i - 1];
      assert p == p[..i - 1] + "/" + base;
    }
  }

  /** Looking for a non-dot in a suffix is looking in the same place of the whole string. */
  lemma HasNonDotShift(p: string, k: nat, lo: int, hi: int)
    requires k <= |p| && 0 <= lo <= hi <= |p| - k
    ensures HasNonDot(p[k..], lo, hi) <==> HasNonDot(p, lo + k, hi + k)
  {
    if HasNonDot(p[k..], lo, hi) {
      var j :| lo <= j < hi && p[k..][j] != '.';
      assert p[j + k] != '.';
    }
    if HasNonDot(p, lo + k, hi + k) {
      var j :| lo + k <= j < hi + k && p[j] != '.';
      assert p[k..][j - k] != '.';
    }
  }

  /** A path and its base name have the same extension. */
  lemma ExtOfBaseName(p: string)
    ensures Ext(BaseName(p)) == Ext(p)
  {
    var s := RFind(p, '/');
    var b := p[s + 1..];
    assert b == BaseName(p);
    RFindSuffix(p, '/', s + 1);
    RFindSuffix(p, '.', s + 1);
    assert RFind(b, '/') == -1;
    var dotP := RFind(p, '.');
    var dotB := RFind(b, '.');
    if dotP > s {
      assert dotB == dotP - (s + 1);
      HasNonDotShift(p, s + 1, 0, dotB);
      if HasNonDot(p, s + 1, dotP) {
        assert b[dotB..] == p[dotP..];
        assert SplitExt(b).1 == b[dotB..];
        assert SplitExt(p).1 == p[dotP..];
      } else {
        assert SplitExt(b).1 == [];
        assert SplitExt(p).1 == [];
      }
    } else {
      assert dotB == -1;
      assert SplitExt(b).1 == [];
      assert SplitExt(p).1 == [];
    }
  }

  /** Splitting off the extension and putting it back gives the name again. */
  lemma StemExtRoundTrip(p: string)
    ensures Stem(p) + Ext(p) == p
  {
  }

  /**
   * A name that has an extension still has that extension after the
   * extension is replaced by another dot-extension: `splitext` of
   * `stem + e` gives `e`.
   */
  lemma ExtOfReplaced(p: string, e: string)
    requires Ext(p) != []
    requires |e| >= 2 && e[0] == '.' && forall i :: 0 < i < |e| ==> e[i] != '.' && e[i] != '/'
    ensures Ext(Stem(p) + e) == e
  {
    var q := Stem(p) + e;
    var sep, dot := RFind(p, '/'), RFind(p, '.');
    assert Stem(p) == p[..dot];
    assert forall j :: 0 <= j < dot ==> q[j] == p[j];
    var dq := |Stem(p)|;
    assert q[dq] == '.';
    assert forall j :: dq < j < |q| ==> q[j] == e[j - dq];
    assert RFind(q, '.') == dq;
    assert RFind(q, '/') == sep by {
      if sep >= 0 { assert q[sep] == '/'; }
    }
    var j :| sep + 1 <= j < dot && p[j] != '.';
    assert q[j] != '.';
    assert q[dq..] == e;
  }

  predicate NoSlash(s: string) {
    forall i :: 0 <= i < |s| ==> s[i] != '/'
  }

  /** Joining a name without slashes onto a directory gives a path whose base name is that name. */
  lemma BaseNameOfJoin(a: string, b: string)
    requires NoSlash(b)
    ensures BaseName(Join(a, b)) == b
  {
    var q := Join(a, b);
    if a == [] {
      assert q == b;
      assert RFind(q, '/') == -1;
      assert q[0..] == q;
    } else if a[|a| - 1] == '/' {
      assert q == a + b;
      assert q[|a| - 1] == '/';
      assert forall j :: |a| - 1 < j < |q| ==> q[j] == b[j - |a|];
      assert RFind(q, '/') == |a| - 1;
      assert q[|a|..] == b;
    } else {
      assert q == a + "/" + b;
      assert q[|a|] == '/';
      assert forall j :: |a| < j < |q| ==> q[j] == b[j - |a| - 1];
      assert RFind(q, '/') == |a|;
      assert q[|a| + 1..] == b;
    }
  }
}
