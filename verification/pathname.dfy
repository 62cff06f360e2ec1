/** `os.path.splitext` on POSIX paths: the extension of a path is the part
    from the last '.' of its final component, provided some character other
    than '.' precedes that dot within the component; otherwise it is empty. */
module PathName {
  import opened Strings

  /** True when some position in [lo, hi) of `p` holds a character other
      than '.'. */
  predicate HasNonDot(p: string, lo: int, hi: int)
    requires 0 <= lo && hi <= |p|
  {
    exists k :: lo <= k < hi && p[k] != '.'
  }

  /** `os.path.splitext(p)` as (root, ext): root and extension put back
      together give the path, a non-empty extension starts with '.', and
      then the root is not empty. */
  function SplitExt(p: string): (r: (string, string))
    ensures r.0 + r.1 == p
    ensures r.1 != "" ==> r.1[0] == '.' && r.0 != ""
  {
    var sepIndex := LastIndexOf(p, '/');
    var dotIndex := LastIndexOf(p, '.');
    if dotIndex > sepIndex && HasNonDot(p, sepIndex + 1, dotIndex)
    then assert p[..dotIndex] + p[dotIndex..] == p; (p[..dotIndex], p[dotIndex..])
    else (p, "")
  }

  /** The extension, stated without reference to how `SplitExt` searches:
      a suffix of `p` that starts with '.', holds no other '.' and no '/',
      and is preceded in the same path component by a character that is
      neither '.' nor '/'. */
  ghost predicate IsExtensionOf(p: string, e: string)
  {
    && 1 <= |e| <= |p|
    && EndsWith(p, e)
    && e[0] == '.'
    && (forall j :: 1 <= j < |e| ==> e[j] != '.' && e[j] != '/')
    && exists k :: 0 <= k < |p| - |e| && p[k] != '.' && p[k] != '/'
                   && forall j :: k < j < |p| - |e| ==> p[j] != '/'
  }

  /** The extension `SplitExt` finds is exactly the one `IsExtensionOf`
      describes, in both directions. */
  lemma SplitExtCharacterized(p: string, e: string)
    requires e != ""
    ensures SplitExt(p).1 == e <==> IsExtensionOf(p, e)
  {
    var sepIndex := LastIndexOf(p, '/');
    var dotIndex := LastIndexOf(p, '.');
    if SplitExt(p).1 == e {
      assert dotIndex > sepIndex && HasNonDot(p, sepIndex + 1, dotIndex);
      assert e == p[dotIndex..];
      var k :| sepIndex + 1 <= k < dotIndex && p[k] != '.';
      assert |p| - |e| == dotIndex;
      forall j | 1 <= j < |e| ensures e[j] != '.' && e[j] != '/' {
        assert e[j] == p[dotIndex + j];
      }
      assert p[k] != '/' && forall j :: k < j < |p| - |e| ==> p[j] != '/';
      assert IsExtensionOf(p, e);
    }
    if IsExtensionOf(p, e) {
      var d := |p| - |e|;
      assert p[d..] == e;
      assert p[d] == '.';
      forall j | d < j < |p| ensures p[j] != '.' && p[j] != '/' {
        assert p[j] == e[j - d];
      }
      assert dotIndex == d;
      var k :| 0 <= k < d && p[k] != '.' && p[k] != '/' && forall j :: k < j < d ==> p[j] != '/';
      assert sepIndex < k;
      assert HasNonDot(p, sepIndex + 1, dotIndex);
    }
  }
}
