/** The extension rule of `os.path.splitext` on POSIX paths. */
module Paths {
  import opened Text

  /** Some character of `p[lo..hi]` is not a dot. */
  predicate NonDotBetween(p: string, lo: nat, hi: nat)
    requires lo <= hi <= |p|
  {
    exists k :: lo <= k < hi && p[k] != '.'
  }

  /**
   * `os.path.splitext(p)[1]`: the text from the last dot of the last path
   * component on, provided that dot is not part of the component's leading
   * run of dots; otherwise the empty string.
   */
  function Extension(p: string): (ext: string)
    ensures |ext| <= |p| && ext == p[|p| - |ext|..]
  {
    var sep := RFind(p, '/');
    var dot := RFind(p, '.');
    if dot > sep && NonDotBetween(p, sep + 1, dot) then p[dot..] else []
  }

  /**
   * A non-empty extension starts with the path's last dot, holds no other
   * dot and no '/', and that dot is preceded by a non-dot character of the
   * last path component.
   */
  lemma ExtensionShape(p: string)
    ensures var ext := Extension(p);
      ext != [] ==>
        && ext[0] == '.' && '.' !in ext[1..] && '/' !in ext
        && NonDotBetween(p, RFind(p, '/') + 1, |p| - |ext|)
  {
  }

  /** A dot that is the last dot of the path and is preceded by a non-dot character in its component gives the extension. */
  lemma {:induction false} ExtensionFromLastDot(p: string, dot: nat)
    requires dot < |p| && p[dot] == '.'
    requires forall k :: dot < k < |p| ==> p[k] != '.' && p[k] != '/'
    requires dot > 0 && p[dot - 1] != '.' && p[dot - 1] != '/'
    ensures Extension(p) == p[dot..]
  {
    var sep := RFind(p, '/');
    assert RFind(p, '.') == dot;
    assert sep < dot - 1;
    assert NonDotBetween(p, sep + 1, dot) by {
      assert sep + 1 <= dot - 1 < dot && p[dot - 1] != '.';
    }
  }

  /** A name made of dots followed by a dot-free tail, like ".gif", has no extension. */
  lemma {:induction false} LeadingDotsOnly(p: string, dot: nat)
    requires dot < |p| && p[dot] == '.'
    requires forall k :: 0 <= k < dot ==> p[k] == '.'
    requires forall k :: dot < k < |p| ==> p[k] != '.' && p[k] != '/'
    ensures Extension(p) == []
  {
    assert RFind(p, '.') == dot;
    assert RFind(p, '/') == -1;
  }
}
