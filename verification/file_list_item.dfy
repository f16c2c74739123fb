/**
  The short name a file-list row shows on narrow screens. Strings are
  sequences of UTF-16 code units, which is what JavaScript's `length` and
  `slice` count.
 */
module FileListItem {

  const MAX_SHOWN: int := 20
  const HEAD: int := 15
  const TAIL: int := 6
  const ELLIPSIS: string := "..."

  /**
    `formatName`: names of at most 20 units pass through; longer ones keep
    their first 15 and last 6 units around "...", 24 units in all.
   */
  function FormatName(name: string): (r: string)
    ensures |name| <= 20 ==> r == name
    ensures |name| > 20 ==>
      && |r| == 24
      && r[..15] == name[..15]
      && r[15..18] == "..."
      && r[18..] == name[|name| - 6..]
    ensures |r| <= 24
    ensures 21 <= |name| <= 23 ==> |r| > |name|
  {
    if |name| > MAX_SHOWN then
      var r := name[..HEAD] + ELLIPSIS + name[|name| - TAIL..];
      assert r[..15] == name[..15];
      assert r[15..18] == "...";
      assert r[18..] == name[|name| - 6..];
      r
    else name
  }

  /** Shortening an already shortened name changes nothing. */
  lemma FormatNameIdempotent(name: string)
    ensures FormatName(FormatName(name)) == FormatName(name)
  {
    if |name| > MAX_SHOWN {
      var r := FormatName(name);
      assert r[..HEAD] == name[..HEAD];
      assert r[|r| - TAIL..] == name[|name| - TAIL..];
      assert FormatName(r) == r[..HEAD] + ELLIPSIS + r[|r| - TAIL..];
    }
  }
}
