/** The two uses of Python's `str.split(sep)` in the core: the first piece and the last piece. */
module Text {
  import opened Wrappers

  /** The position of the first c in s, if any. */
  function IndexOf(s: string, c: char): (r: Option<nat>)
    ensures r.Some? ==> r.value < |s| && s[r.value] == c && c !in s[..r.value]
    ensures r.None? ==> c !in s
  {
    if |s| == 0 then None
    else if s[0] == c then Some(0)
    else match IndexOf(s[1..], c)
      case None => None
      case Some(i) => assert s[..i + 1] == [s[0]] + s[1..][..i]; Some(i + 1)
  }

  /** The position of the last c in s, if any. */
  function LastIndexOf(s: string, c: char): (r: Option<nat>)
    ensures r.Some? ==> r.value < |s| && s[r.value] == c && c !in s[r.value + 1..]
    ensures r.None? ==> c !in s
  {
    if |s| == 0 then None
    else if s[|s| - 1] == c then Some(|s| - 1)
    else
      var r := LastIndexOf(s[..|s| - 1], c);
      assert r.Some? ==> s[r.value + 1..] == s[..|s| - 1][r.value + 1..] + [s[|s| - 1]];
      assert r.None? ==> s == s[..|s| - 1] + [s[|s| - 1]];
      r
  }

  /** `s.split(c)[0]`: the text before the first c, or all of s when there is none. */
  function SplitFirst(s: string, c: char): (r: string)
    ensures c !in r
    ensures c in s ==> |r| < |s| && s[..|r|] == r && s[|r|] == c
    ensures c !in s ==> r == s
  {
    match IndexOf(s, c)
    case None => s
    case Some(i) => s[..i]
  }

  /** `s.split(c)[-1]`: the text after the last c, or all of s when there is none. */
  function SplitLast(s: string, c: char): (r: string)
    ensures c !in r
    ensures c in s ==> |r| < |s| && s[|s| - |r|..] == r && s[|s| - |r| - 1] == c
    ensures c !in s ==> r == s
  {
    match LastIndexOf(s, c)
    case None => s
    case Some(i) => s[i + 1..]
  }

  lemma SplitFirstOfConcat(a: string, c: char, b: string)
    requires c !in a
    ensures SplitFirst(a + [c] + b, c) == a
  {
    var s := a + [c] + b;
    assert s[|a|] == c;
    assert s[..|a|] == a;
  }

  lemma SplitLastOfConcat(a: string, c: char, b: string)
    requires c !in b
    ensures SplitLast(a + [c] + b, c) == b
  {
    var s := a + [c] + b;
    var r := SplitLast(s, c);
    assert s[|a|] == c;
    assert s[|a| + 1..] == b;
  }
}
