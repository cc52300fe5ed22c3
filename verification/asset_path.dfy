/**
 * The fallback location of a LUT thumbnail bundled with the app: the file
 * name of the cached path, without its extension, under the asset folder.
 */
module AssetPath {

  const Prefix: string := "file:///android_asset/thumb/"
  const Suffix: string := ".jpg"

  /** Index of the last occurrence of `c` in `s`, or -1. */
  function LastIndexOf(s: string, c: char): (i: int)
    ensures -1 <= i < |s|
    ensures i >= 0 ==> s[i] == c && forall j :: i < j < |s| ==> s[j] != c
    ensures i == -1 ==> forall j :: 0 <= j < |s| ==> s[j] != c
    decreases |s|
  {
    if |s| == 0 then -1
    else if s[|s| - 1] == c then |s| - 1
    else LastIndexOf(s[..|s| - 1], c)
  }

  /** Kotlin's `substringAfterLast(c)`: the whole string when `c` does not occur. */
  function SubstringAfterLast(s: string, c: char): (r: string)
    ensures c !in r
    ensures LastIndexOf(s, c) == -1 ==> r == s
    ensures LastIndexOf(s, c) >= 0 ==> s == s[..LastIndexOf(s, c)] + [c] + r
  {
    var i := LastIndexOf(s, c);
    if i == -1 then s else s[i + 1..]
  }

  /** Kotlin's `substringBeforeLast(c)`: the whole string when `c` does not occur. */
  function SubstringBeforeLast(s: string, c: char): (r: string)
    ensures LastIndexOf(s, c) == -1 ==> r == s
    ensures LastIndexOf(s, c) >= 0 ==> exists ext :: s == r + [c] + ext && c !in ext
  {
    var i := LastIndexOf(s, c);
    if i == -1 then s
    else
      assert s == s[..i] + [c] + s[i + 1..];
      s[..i]
  }

  /** The name under which the thumbnail is looked up: the last path segment without its extension. */
  function ThumbName(thumbPath: string): (name: string)
    ensures '/' !in name
  {
    var segment := SubstringAfterLast(thumbPath, '/');
    var name := SubstringBeforeLast(segment, '.');
    assert forall k :: 0 <= k < |name| ==> name[k] == segment[k];
    name
  }

  function FallbackAssetPath(thumbPath: string): (r: string)
    ensures |r| >= |Prefix| + |Suffix|
    ensures r[..|Prefix|] == Prefix && r[|r| - |Suffix|..] == Suffix
    ensures r[|Prefix|..|r| - |Suffix|] == ThumbName(thumbPath)
  {
    Prefix + ThumbName(thumbPath) + Suffix
  }

  /** A path with no '/' is its own last segment; a segment with no '.' is its own name. */
  lemma NoDelimiters(thumbPath: string)
    requires '/' !in thumbPath && '.' !in thumbPath
    ensures ThumbName(thumbPath) == thumbPath
  {
  }

  /** Only the text from the final '.' of the last segment is dropped: name, '.', extension rebuild the segment. */
  lemma OnlyLastExtensionDropped(thumbPath: string)
    requires '.' in SubstringAfterLast(thumbPath, '/')
    ensures exists ext :: SubstringAfterLast(thumbPath, '/') == ThumbName(thumbPath) + ['.'] + ext && '.' !in ext
  {
    var seg := SubstringAfterLast(thumbPath, '/');
    assert LastIndexOf(seg, '.') >= 0;
    assert ThumbName(thumbPath) == SubstringBeforeLast(seg, '.');
  }

  /** The last occurrence is determined by its defining property. */
  lemma LastIndexOfUnique(s: string, c: char, i: int)
    requires 0 <= i < |s| && s[i] == c
    requires forall j :: i < j < |s| ==> s[j] != c
    ensures LastIndexOf(s, c) == i
  {
  }

  /** Concrete example: a nested path with a double extension keeps the inner one. */
  lemma ExampleNestedPath()
    ensures ThumbName("/data/lut/warm.film.png") == "warm.film"
  {
    var path := "/data/lut/warm.film.png";
    LastIndexOfUnique(path, '/', 9);
    var seg := SubstringAfterLast(path, '/');
    assert seg == "warm.film.png";
    LastIndexOfUnique(seg, '.', 9);
  }
}
