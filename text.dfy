/** The string operations the registries and the archive code use: `split` pieces and `replace`. */
module Text {

  /** `s.split(c)[0]`: the text before the first `c`, or all of `s` when there is none. */
  function BeforeFirst(s: string, c: char): (r: string)
    ensures c !in r
    ensures r <= s
    ensures c in s ==> |r| < |s| && s[|r|] == c
    ensures c !in s ==> r == s
  {
    if s == [] then []
    else if s[0] == c then []
    else [s[0]] + BeforeFirst(s[1..], c)
  }

  /** `s.split(c)[-1]`: the text after the last `c`, or all of `s` when there is none. */
  function AfterLast(s: string, c: char): (r: string)
    ensures c !in r
    ensures |r| <= |s| && r == s[|s| - |r|..]
    ensures c in s ==> |r| < |s| && s[|s| - |r| - 1] == c
    ensures c !in s ==> r == s
  {
    if s == [] then []
    else if s[|s| - 1] == c then []
    else
      var r := AfterLast(s[..|s| - 1], c);
      assert s[..|s| - 1][|s| - 1 - |r|..] + [s[|s| - 1]] == s[|s| - (|r| + 1)..];
      r + [s[|s| - 1]]
  }

  /** `s.replace(a, b)` for single characters: every `a` becomes `b`, nothing else moves. */
  function Replace(s: string, a: char, b: char): (r: string)
    ensures |r| == |s|
    ensures forall i :: 0 <= i < |s| ==> r[i] == (if s[i] == a then b else s[i])
    ensures a != b ==> a !in r
  {
    if s == [] then []
    else [if s[0] == a then b else s[0]] + Replace(s[1..], a, b)
  }

  /** `c` occurs in `s` exactly once. */
  predicate OccursOnce(s: string, c: char)
  {
    && c in s
    && forall i, j :: 0 <= i < |s| && 0 <= j < |s| && s[i] == c && s[j] == c ==> i == j
  }

  /** With a single separator, the two outer pieces of a split put back together give the text. */
  lemma SplitOnceRejoins(s: string, c: char)
    requires OccursOnce(s, c)
    ensures BeforeFirst(s, c) + [c] + AfterLast(s, c) == s
  {
    var before, after := BeforeFirst(s, c), AfterLast(s, c);
    var k := |before|;
    assert s[k] == c && s[|s| - |after| - 1] == c;
    assert k == |s| - |after| - 1;
    assert before == s[..k];
    assert after == s[k + 1..];
    assert s == s[..k] + [s[k]] + s[k + 1..];
  }

  /** The piece after the last separator is exactly a separator-free tail. */
  lemma AfterLastOfTail(p: string, c: char, t: string)
    requires c !in t
    ensures AfterLast(p + [c] + t, c) == t
  {
    var s := p + [c] + t;
    var r := AfterLast(s, c);
    assert s[|s| - |t| - 1] == c;
    assert r == s[|s| - |t|..] == t;
  }

  /** The piece before the first separator is exactly a separator-free head. */
  lemma BeforeFirstOfHead(h: string, c: char, t: string)
    requires c !in h
    ensures BeforeFirst(h + [c] + t, c) == h
  {
    var s := h + [c] + t;
    var r := BeforeFirst(s, c);
    assert s[|h|] == c;
    assert r == s[..|h|] == h;
  }

  /**
   * `zip_file.split('_')[-1].split('.')[0]`: the checksum part of a backup archive name
   * `<anything>_<md5>.<extension>`.
   */
  function Md5FromZipName(zipFile: string): (md5: string)
    ensures '_' !in md5 && '.' !in md5
    ensures |md5| <= |zipFile|
  {
    BeforeFirst(AfterLast(zipFile, '_'), '.')
  }

  /** The checksum written into an archive name `<stem>_<md5>.<extension>` is read back. */
  lemma Md5FromZipNameRoundTrip(stem: string, md5: string, extension: string)
    requires '_' !in md5 && '.' !in md5 && '_' !in extension
    ensures Md5FromZipName(stem + "_" + md5 + "." + extension) == md5
  {
    var tail := md5 + "." + extension;
    assert '_' !in tail by {
      assert forall i :: 0 <= i < |tail| ==> tail[i] == (if i < |md5| then md5[i] else if i == |md5| then '.' else extension[i - |md5| - 1]);
    }
    assert stem + "_" + md5 + "." + extension == stem + ['_'] + tail;
    AfterLastOfTail(stem, '_', tail);
    assert tail == md5 + ['.'] + extension;
    BeforeFirstOfHead(md5, '.', extension);
  }
}
