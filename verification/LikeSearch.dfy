/**
 Substring search through ILIKE: what a pattern matches under an escape character, and why escaping
 the wildcards of a search makes it match exactly the texts that contain it.
 */
module LikeSearch {

  /** The database's case folding, character by character. */
  const Fold: char -> char

  const ESCAPE := '\\'

  predicate SameLetter(a: char, b: char) { Fold(a) == Fold(b) }

  /** Whether text s matches pattern p (ISO/IEC 9075-2 section 8.5), compared up to case. */
  ghost predicate Matches(p: string, s: string)
    decreases |p|
  {
    if p == [] then s == []
    else if p[0] == '%' then exists i :: 0 <= i <= |s| && Matches(p[1..], s[i..])
    else if p[0] == '_' then s != [] && Matches(p[1..], s[1..])
    else if p[0] == ESCAPE then |p| > 1 && s != [] && SameLetter(p[1], s[0]) && Matches(p[2..], s[1..])
    else s != [] && SameLetter(p[0], s[0]) && Matches(p[1..], s[1..])
  }

  function EscapedChar(c: char): string {
    if c == ESCAPE || c == '%' || c == '_' then [ESCAPE, c] else [c]
  }

  /** The replacer's one pass over the search, each wildcard and each escape character neutralised. */
  function EscapeLike(q: string): string {
    if q == [] then [] else EscapedChar(q[0]) + EscapeLike(q[1..])
  }

  predicate StartsWith(s: string, q: string) {
    |q| <= |s| && forall k :: 0 <= k < |q| ==> SameLetter(q[k], s[k])
  }

  /** q occurs in s, up to case. */
  ghost predicate Occurs(q: string, s: string) {
    exists i :: 0 <= i <= |s| && StartsWith(s[i..], q)
  }

  lemma EscapedCharMatches(c: char, rest: string, s: string)
    ensures Matches(EscapedChar(c) + rest, s) <==> s != [] && SameLetter(c, s[0]) && Matches(rest, s[1..])
  {
    var p := EscapedChar(c) + rest;
    assert |EscapedChar(c)| == 1 ==> p[1..] == rest;
    assert |EscapedChar(c)| == 2 ==> p[2..] == rest;
  }

  /** An escaped text matches only itself, and hands what follows it to the rest of the pattern. */
  lemma {:induction false} EscapedMatches(q: string, rest: string, s: string)
    ensures Matches(EscapeLike(q) + rest, s) <==> StartsWith(s, q) && Matches(rest, s[|q|..])
    decreases |q|
  {
    if q == [] {
      assert EscapeLike(q) + rest == rest && s[0..] == s;
    } else {
      assert EscapeLike(q) + rest == EscapedChar(q[0]) + (EscapeLike(q[1..]) + rest);
      EscapedCharMatches(q[0], EscapeLike(q[1..]) + rest, s);
      if s != [] {
        EscapedMatches(q[1..], rest, s[1..]);
        if |q| <= |s| { assert s[1..][|q| - 1..] == s[|q|..]; }
        StartsWithCons(s, q);
      }
    }
  }

  lemma StartsWithCons(s: string, q: string)
    requires s != [] && q != []
    ensures StartsWith(s, q) <==> SameLetter(q[0], s[0]) && StartsWith(s[1..], q[1..])
  {
    if SameLetter(q[0], s[0]) && StartsWith(s[1..], q[1..]) {
      forall k | 0 <= k < |q| ensures SameLetter(q[k], s[k]) {
        assert k > 0 ==> SameLetter(q[1..][k - 1], s[1..][k - 1]);
      }
    }
  }

  lemma AnythingMatches(s: string)
    ensures Matches("%", s)
  {
    assert "%"[1..] == [] && s[|s|..] == [];
    assert Matches("%"[1..], s[|s|..]);
  }

  /** The directory's search pattern finds exactly the texts the search occurs in, whatever either contains. */
  lemma SearchFindsExactly(q: string, s: string)
    ensures Matches("%" + (EscapeLike(q) + "%"), s) <==> Occurs(q, s)
  {
    var body := EscapeLike(q) + "%";
    assert ("%" + body)[1..] == body;
    forall i | 0 <= i <= |s| ensures Matches(body, s[i..]) <==> StartsWith(s[i..], q) {
      EscapedMatches(q, "%", s[i..]);
      if |q| <= |s[i..]| { AnythingMatches(s[i..][|q|..]); }
    }
  }

  /** Unescaped, a search for one of the wildcards would find every text long enough. */
  lemma UnescapedFindsMore(s: string)
    requires s != []
    ensures Matches("%" + ("_" + "%"), s)
  {
    assert ("%" + ("_" + "%"))[1..] == "_" + "%" && ("_" + "%")[1..] == "%" && s[0..] == s;
    AnythingMatches(s[1..]);
    assert Matches("_" + "%", s[0..]);
  }
}
