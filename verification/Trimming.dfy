/** Trimming text as Go's strings package does. */
module Trimming {
  /** unicode.IsSpace beyond Latin-1: a table whose contents no property here depends on. */
  const SpaceBeyondLatin: char -> bool

  predicate IsSpace(c: char) {
    if c as int < 256 then 9 <= c as int <= 13 || c == ' ' || c as int == 0x85 || c as int == 0xA0
    else SpaceBeyondLatin(c)
  }

  function TrimLeft(s: string, drop: char -> bool): (r: string)
    ensures |r| <= |s| && r == s[|s| - |r|..] && forall i :: 0 <= i < |s| - |r| ==> drop(s[i])
    ensures r != "" ==> !drop(r[0])
  {
    if s != "" && drop(s[0]) then TrimLeft(s[1..], drop) else s
  }

  function TrimRight(s: string, drop: char -> bool): (r: string)
    ensures r <= s && forall i :: |r| <= i < |s| ==> drop(s[i])
    ensures r != "" ==> !drop(r[|r| - 1])
  {
    if s != "" && drop(s[|s| - 1]) then TrimRight(s[..|s| - 1], drop) else s
  }

  function TrimSpace(s: string): (r: string)
    ensures r != "" ==> !IsSpace(r[0]) && !IsSpace(r[|r| - 1])
  {
    TrimRight(TrimLeft(s, IsSpace), IsSpace)
  }

  /** Nothing but white space goes, from both ends. */
  lemma TrimSpaceExactly(s: string) returns (before: string, after: string)
    ensures s == before + (TrimSpace(s) + after)
    ensures forall i :: 0 <= i < |before| ==> IsSpace(before[i])
    ensures forall i :: 0 <= i < |after| ==> IsSpace(after[i])
  {
    hide IsSpace, TrimLeft, TrimRight;
    var l := TrimLeft(s, IsSpace);
    var r := TrimRight(l, IsSpace);
    before, after := s[..|s| - |l|], l[|r|..];
    assert s == before + l && l == r + after;
  }

  /** Only white space trims away to nothing. */
  lemma TrimsToNothing(s: string)
    ensures TrimSpace(s) == "" <==> forall i :: 0 <= i < |s| ==> IsSpace(s[i])
  {
    hide IsSpace, TrimSpace;
    var r := TrimSpace(s);
    var before, after := TrimSpaceExactly(s);
    if r == "" {
      assert s == before + after;
    } else {
      assert s[|before|] == r[0];
    }
  }
}
