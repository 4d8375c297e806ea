/**
 * The keys under which a translated file is stored in a language pack. They
 * are cut out of the file's original path with JavaScript's `indexOf('/')`
 * and `substr`, not with a path library.
 */
module PackPaths {

  /** The project whose XLF files hold the translations of extensions. */
  const ExtensionsProject := "extensions"

  /**
   * `s.indexOf(c, from)` for a one-character search string: the first
   * position at or after `from` (a negative `from` counts as 0) holding `c`,
   * or -1.
   */
  function IndexOf(s: string, c: char, from: int): (r: int)
    ensures -1 <= r < |s|
    ensures r >= 0 ==> s[r] == c && r >= from && forall i :: 0 <= i < r && i >= from ==> s[i] != c
    ensures r == -1 <==> forall i :: 0 <= i < |s| && i >= from ==> s[i] != c
    decreases |s| - from
  {
    if from < 0 then IndexOf(s, c, 0)
    else if from >= |s| then -1
    else if s[from] == c then from
    else IndexOf(s, c, from + 1)
  }

  /** `s.substr(start)` with no length: from `start` (counted from the end when negative) to the end. */
  function Substr(s: string, start: int): string
  {
    var from := if start < 0 then (if |s| + start < 0 then 0 else |s| + start) else start;
    if from >= |s| then "" else s[from..]
  }

  /** The key of a file of the main pack: `path.substr(path.indexOf('/') + 1)`. */
  function MainKey(path: string): string
  {
    Substr(path, IndexOf(path, '/', 0) + 1)
  }

  /**
   * The key of a file of an internal extension pack, which drops the
   * `extensions/<id>/` prefix: `path.substr(path.indexOf('/', firstSlash + 1) + 1)`.
   */
  function AdsKey(path: string): string
  {
    var firstSlash := IndexOf(path, '/', 0);
    var secondSlash := IndexOf(path, '/', firstSlash + 1);
    Substr(path, secondSlash + 1)
  }

  lemma FirstSlash(seg: string, rest: string)
    requires '/' !in seg
    ensures IndexOf(seg + "/" + rest, '/', 0) == |seg|
  {
    var p := seg + "/" + rest;
    assert p[|seg|] == '/';
    assert forall i :: 0 <= i < |seg| ==> p[i] == seg[i];
  }

  lemma NoSlash(p: string, from: int)
    requires '/' !in p
    ensures IndexOf(p, '/', from) == -1
  {
  }

  /** A path with a slash loses its first segment and that slash in the main pack. */
  lemma MainKeyOfPath(seg: string, rest: string)
    requires '/' !in seg
    ensures MainKey(seg + "/" + rest) == rest
  {
    var p := seg + "/" + rest;
    FirstSlash(seg, rest);
    assert p[|seg| + 1..] == rest;
  }

  /** A path without a slash is its own key: `indexOf` gives -1 and `substr(0)` keeps everything. */
  lemma MainKeyWithoutSlash(p: string)
    requires '/' !in p
    ensures MainKey(p) == p
  {
    NoSlash(p, 0);
  }

  /** A path with at least two slashes loses its first two segments in an internal extension pack. */
  lemma AdsKeyOfPath(seg1: string, seg2: string, rest: string)
    requires '/' !in seg1 && '/' !in seg2
    ensures AdsKey(seg1 + "/" + seg2 + "/" + rest) == rest
  {
    var p := seg1 + "/" + seg2 + "/" + rest;
    assert p == seg1 + "/" + (seg2 + "/" + rest);
    FirstSlash(seg1, seg2 + "/" + rest);
    var n := |seg1| + 1;
    assert p[n + |seg2|] == '/';
    assert forall i :: n <= i < n + |seg2| ==> p[i] == seg2[i - n];
    assert IndexOf(p, '/', n) == n + |seg2|;
    assert p[n + |seg2| + 1..] == rest;
  }

  /**
   * A path with exactly one slash keeps both segments in an internal extension
   * pack: the second `indexOf` gives -1 and `substr(0)` is the whole path.
   */
  lemma AdsKeyOneSlash(seg1: string, seg2: string)
    requires '/' !in seg1 && '/' !in seg2
    ensures AdsKey(seg1 + "/" + seg2) == seg1 + "/" + seg2
  {
    var p := seg1 + "/" + seg2;
    FirstSlash(seg1, seg2);
    var n := |seg1| + 1;
    assert forall i :: n <= i < |p| ==> p[i] == seg2[i - n];
    assert IndexOf(p, '/', n) == -1;
  }

  /** A path without a slash is its own key in an internal extension pack as well. */
  lemma AdsKeyWithoutSlash(p: string)
    requires '/' !in p
    ensures AdsKey(p) == p
  {
    NoSlash(p, 0);
  }
}
