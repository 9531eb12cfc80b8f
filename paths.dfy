/**
 * File-extension extraction as `os.path.splitext` does it on POSIX paths
 * (`genericpath._splitext` with separator "/" and extension separator ".").
 */
module Paths {

  /** Python's `s.rfind(c)`: the last index of `c` in `s`, or -1. */
  function LastIndexOf(s: string, c: char): (r: int)
    ensures -1 <= r < |s|
    ensures r >= 0 ==> s[r] == c
  {
    if s == [] then -1
    else if s[|s| - 1] == c then |s| - 1
    else LastIndexOf(s[..|s| - 1], c)
  }

  /** No `c` comes after the index `rfind` reports. */
  lemma {:induction false} LastIndexOfIsLast(s: string, c: char)
    ensures forall i :: LastIndexOf(s, c) < i < |s| ==> s[i] != c
  {
    if s != [] && s[|s| - 1] != c {
      LastIndexOfIsLast(s[..|s| - 1], c);
    }
  }

  /** `rfind` reports the index of the last `c`, and -1 exactly when there is none. */
  lemma {:induction false} LastIndexOfAt(s: string, c: char, i: int)
    requires -1 <= i < |s|
    requires i >= 0 ==> s[i] == c
    requires forall j :: i < j < |s| ==> s[j] != c
    ensures LastIndexOf(s, c) == i
  {
    LastIndexOfIsLast(s, c);
  }

  /**
   * The scan `_splitext` makes from the start of the final segment up to
   * the last dot: true when it meets a character other than ".".
   */
  function HasNonDot(p: string, lo: nat, hi: nat): (found: bool)
    requires lo <= hi <= |p|
    decreases hi - lo
  {
    lo < hi && (p[lo] != '.' || HasNonDot(p, lo + 1, hi))
  }

  lemma {:induction false} HasNonDotIff(p: string, lo: nat, hi: nat)
    requires lo <= hi <= |p|
    ensures HasNonDot(p, lo, hi) <==> (exists i :: lo <= i < hi && p[i] != '.')
    decreases hi - lo
  {
    if lo < hi && p[lo] == '.' {
      HasNonDotIff(p, lo + 1, hi);
      if exists i :: lo <= i < hi && p[i] != '.' {
        var i :| lo <= i < hi && p[i] != '.';
        assert lo + 1 <= i;
      }
    }
  }

  /**
   * The extension part of `os.path.splitext(p)`: it starts at the last "."
   * of the final "/"-segment, provided some character other than "." comes
   * before that dot within the segment (so ".bashrc" has none); otherwise empty.
   */
  function Extension(p: string): (ext: string)
    ensures |ext| <= |p|
  {
    var sepIndex := LastIndexOf(p, '/');
    var dotIndex := LastIndexOf(p, '.');
    if dotIndex > sepIndex && HasNonDot(p, sepIndex + 1, dotIndex)
    then p[dotIndex..]
    else []
  }

  /** The stem part of `os.path.splitext(p)`: what precedes the extension. */
  function Stem(p: string): (stem: string)
  {
    p[..|p| - |Extension(p)|]
  }

  /**
   * The two parts of `splitext` put back together give the path; a non-empty
   * extension is one dot followed by a dot-free, "/"-free tail.
   */
  lemma ExtensionShape(p: string)
    ensures Stem(p) + Extension(p) == p
    ensures var ext := Extension(p);
      ext != [] ==> ext[0] == '.' && '.' !in ext[1..] && '/' !in ext
  {
    var ext := Extension(p);
    var d := LastIndexOf(p, '.');
    if ext != [] {
      assert ext == p[d..];
    }
    assert p[..|p| - |ext|] + p[|p| - |ext|..] == p;
    if ext != [] {
      LastIndexOfIsLast(p, '.');
      LastIndexOfIsLast(p, '/');
      forall k | 1 <= k < |ext| ensures ext[k] != '.' && ext[k] != '/' {
        assert ext[k] == p[d + k];
      }
    }
  }

  /**
   * A path has an extension exactly when its final "/"-segment holds a "."
   * with some non-"." character before it in that segment.
   */
  lemma {:induction false} ExtensionExists(p: string)
    ensures Extension(p) != [] <==>
      exists i, j :: LastIndexOf(p, '/') < i < j < |p| && p[i] != '.' && p[j] == '.'
  {
    var s := LastIndexOf(p, '/');
    var d := LastIndexOf(p, '.');
    LastIndexOfIsLast(p, '.');
    if d > s {
      HasNonDotIff(p, s + 1, d);
    }
    if Extension(p) != [] {
      var i :| s + 1 <= i < d && p[i] != '.';
      assert s < i < d < |p| && p[i] != '.' && p[d] == '.';
    }
    if exists i, j :: s < i < j < |p| && p[i] != '.' && p[j] == '.' {
      var i, j :| s < i < j < |p| && p[i] != '.' && p[j] == '.';
      assert j <= d;
      assert s + 1 <= i < d && p[i] != '.';
    }
  }

  /** The bucket name `extension_stats` counts a path under. */
  const NoExtension := "<noext>"

  function ExtensionToken(p: string): (token: string)
    ensures token != []
    ensures Extension(p) != [] ==> token == Extension(p)
  {
    var ext := Extension(p);
    if ext == [] then NoExtension else ext
  }

  /**
   * A path falls in the "<noext>" bucket exactly when it has no extension,
   * and otherwise in the bucket of its extension, which starts with the dot.
   */
  lemma ExtensionTokenShape(p: string)
    ensures var token := ExtensionToken(p);
      && (token == NoExtension <==> Extension(p) == [])
      && (Extension(p) != [] ==> token == Extension(p) && token[0] == '.')
  {
    ExtensionShape(p);
  }
}
