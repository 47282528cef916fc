/** The glob matcher that doctest uses for every name filter: a two-pointer loop that
    backtracks only to the most recent `*`, checked against the recursive glob relation. */
module Wildcard {

  /** `tolower` of the C locale. */
  function ToLower(c: char): char {
    if 'A' <= c <= 'Z' then c + 32 as char else c
  }

  predicate SameChar(wild: char, c: char, caseSensitive: bool) {
    || wild == '?'
    || (if caseSensitive then wild == c else ToLower(wild) == ToLower(c))
  }

  /** The glob relation: `*` stands for any run of characters, `?` for any one character. */
  predicate Matches(str: seq<char>, wild: seq<char>, caseSensitive: bool)
    decreases |str| + |wild|
  {
    if wild == [] then
      str == []
    else if wild[0] == '*' then
      || Matches(str, wild[1..], caseSensitive)
      || (str != [] && Matches(str[1..], wild, caseSensitive))
    else
      && str != []
      && SameChar(wild[0], str[0], caseSensitive)
      && Matches(str[1..], wild[1..], caseSensitive)
  }

  /** Some suffix of `str` starting at `from` or later matches `wild`. */
  ghost predicate MatchesLater(str: seq<char>, from: nat, wild: seq<char>, caseSensitive: bool) {
    exists k :: from <= k <= |str| && Matches(str[k..], wild, caseSensitive)
  }

  /** A leading `*` lets the rest of the pattern start at any later position. */
  lemma {:induction false} StarMatchesLater(str: seq<char>, from: nat, wild: seq<char>, caseSensitive: bool)
    requires from <= |str| && wild != [] && wild[0] == '*'
    ensures Matches(str[from..], wild, caseSensitive) <==> MatchesLater(str, from, wild[1..], caseSensitive)
    decreases |str| - from
  {
    if from < |str| {
      StarMatchesLater(str, from + 1, wild, caseSensitive);
      assert str[from..][1..] == str[from + 1..];
    } else {
      assert str[from..] == [];
    }
  }

  /** A stretch of the pattern without `*` consumes exactly as many characters. */
  lemma {:induction false} PlainStretchConsumes(str: seq<char>, from: nat, wild: seq<char>, n: nat, caseSensitive: bool)
    requires from <= |str| && n <= |wild|
    requires '*' !in wild[..n]
    requires Matches(str[from..], wild, caseSensitive)
    ensures from + n <= |str| && Matches(str[from + n..], wild[n..], caseSensitive)
    decreases n
  {
    if n == 0 {
      assert wild[0..] == wild;
    } else {
      assert wild[0] == wild[..n][0];
      assert str[from..][1..] == str[from + 1..];
      assert wild[1..][..n - 1] == wild[..n][1..];
      PlainStretchConsumes(str, from + 1, wild[1..], n - 1, caseSensitive);
      assert wild[1..][n - 1..] == wild[n..];
    }
  }

  /** Forgetting an older `*` loses no match: whatever the older one could still reach, the
      newer one, met `n` plain characters later, reaches as well. */
  lemma OlderStarIsRedundant(str: seq<char>, cp: nat, wild: seq<char>, n: nat, caseSensitive: bool)
    requires 0 < cp && cp - 1 + n <= |str| && n < |wild| && wild[n] == '*'
    requires '*' !in wild[..n]
    requires MatchesLater(str, cp, wild, caseSensitive)
    ensures Matches(str[cp - 1 + n..], wild[n..], caseSensitive)
  {
    var k :| cp <= k <= |str| && Matches(str[k..], wild, caseSensitive);
    PlainStretchConsumes(str, k, wild, n, caseSensitive);
    StarMatchesLater(str, k + n, wild[n..], caseSensitive);
    StarMatchesLater(str, cp - 1 + n, wild[n..], caseSensitive);
  }

  /** Once the string is used up, no shorter suffix can satisfy a pattern that begins with as
      many plain characters as the suffix at `cp - 1` has. */
  lemma NoLaterMatchAtEnd(str: seq<char>, cp: nat, wild: seq<char>, n: nat, caseSensitive: bool)
    requires 0 < cp && cp - 1 + n == |str| && n <= |wild|
    requires '*' !in wild[..n]
    ensures !MatchesLater(str, cp, wild, caseSensitive)
  {
    if MatchesLater(str, cp, wild, caseSensitive) {
      var k :| cp <= k <= |str| && Matches(str[k..], wild, caseSensitive);
      PlainStretchConsumes(str, k, wild, n, caseSensitive);
      assert false;
    }
  }

  /** `Matches` on what is left of the string and of the pattern. */
  ghost predicate Rest(str: seq<char>, s: nat, wild: seq<char>, w: nat, caseSensitive: bool)
    requires s <= |str| && w <= |wild|
  {
    Matches(str[s..], wild[w..], caseSensitive)
  }

  lemma RestOfAll(str: seq<char>, wild: seq<char>, caseSensitive: bool)
    ensures Rest(str, 0, wild, 0, caseSensitive) <==> Matches(str, wild, caseSensitive)
  {
    assert str[0..] == str && wild[0..] == wild;
  }

  /** One character of the string against one character of the pattern that is not a star. */
  lemma RestStep(str: seq<char>, s: nat, wild: seq<char>, w: nat, caseSensitive: bool)
    requires s < |str| && w <= |wild| && !(w < |wild| && wild[w] == '*')
    ensures Rest(str, s, wild, w, caseSensitive) <==>
            w < |wild| && SameChar(wild[w], str[s], caseSensitive) && Rest(str, s + 1, wild, w + 1, caseSensitive)
  {
    assert str[s..][1..] == str[s + 1..];
    if w < |wild| {
      assert wild[w..][1..] == wild[w + 1..];
    }
  }

  /** What the loop knows after meeting a star: the older star can be forgotten. */
  lemma RestAtStar(str: seq<char>, s: nat, wild: seq<char>, w: nat, mp: nat, cp: nat, starSeen: bool,
                   caseSensitive: bool)
    requires s < |str| && mp <= w < |wild| && wild[w] == '*'
    requires starSeen ==> 0 < cp && s - (cp - 1) == w - mp && '*' !in wild[mp..w]
    ensures Rest(str, s, wild, w, caseSensitive) || (starSeen && MatchesLater(str, cp, wild[mp..], caseSensitive)) <==>
            Rest(str, s, wild, w + 1, caseSensitive) || MatchesLater(str, s + 1, wild[w + 1..], caseSensitive)
    ensures w + 1 == |wild| ==> Rest(str, s, wild, w, caseSensitive)
  {
    StarMatchesLater(str, s, wild[w..], caseSensitive);
    assert wild[w..][1..] == wild[w + 1..];
    if starSeen && MatchesLater(str, cp, wild[mp..], caseSensitive) {
      assert wild[mp..][..w - mp] == wild[mp..w] && wild[mp..][w - mp..] == wild[w..];
      OlderStarIsRedundant(str, cp, wild[mp..], w - mp, caseSensitive);
    }
    if w + 1 == |wild| {
      assert str[|str|..] == [] && wild[w + 1..] == [];
      assert Matches(str[|str|..], wild[w + 1..], caseSensitive);
    }
  }

  /** Falling back to the last star, one character further on. */
  lemma LaterStep(str: seq<char>, cp: nat, wild: seq<char>, mp: nat, caseSensitive: bool)
    requires cp <= |str| && mp <= |wild|
    ensures MatchesLater(str, cp, wild[mp..], caseSensitive) <==>
            Rest(str, cp, wild, mp, caseSensitive) || MatchesLater(str, cp + 1, wild[mp..], caseSensitive)
  {
  }

  /** Trailing stars of the pattern match the empty rest, anything else does not. */
  lemma RestAtEnd(str: seq<char>, wild: seq<char>, w: nat, caseSensitive: bool)
    requires w <= |wild|
    ensures Rest(str, |str|, wild, w, caseSensitive) <==>
            w == |wild| || (wild[w] == '*' && Rest(str, |str|, wild, w + 1, caseSensitive))
  {
    if w < |wild| {
      assert wild[w..][1..] == wild[w + 1..];
    }
  }

  method WildCmp(str: seq<char>, wild: seq<char>, caseSensitive: bool) returns (matched: bool)
    ensures matched <==> Matches(str, wild, caseSensitive)
  {
    hide Rest, Matches, MatchesLater;
    var s, w := 0, 0;
    var cp, mp := 0, 0;
    RestOfAll(str, wild, caseSensitive);

    while s < |str| && !(w < |wild| && wild[w] == '*')
      invariant 0 <= s <= |str| && 0 <= w <= |wild|
      invariant Matches(str, wild, caseSensitive) <==> Rest(str, s, wild, w, caseSensitive)
    {
      RestStep(str, s, wild, w, caseSensitive);
      if w == |wild| || !SameChar(wild[w], str[s], caseSensitive) {
        return false;
      }
      w, s := w + 1, s + 1;
    }

    ghost var starSeen := false;
    while s < |str|
      invariant 0 <= s <= |str| && 0 <= mp <= w <= |wild|
      invariant !starSeen ==> mp == 0 && cp == 0 && (s < |str| ==> w < |wild| && wild[w] == '*')
      invariant starSeen ==> 0 < mp && 0 < cp <= |str| + 1 && s - (cp - 1) == w - mp && '*' !in wild[mp..w]
      invariant Matches(str, wild, caseSensitive) <==>
                || Rest(str, s, wild, w, caseSensitive)
                || (starSeen && MatchesLater(str, cp, wild[mp..], caseSensitive))
      decreases |wild| - mp, |str| + 1 - cp, |str| - s
    {
      if w < |wild| && wild[w] == '*' {
        RestAtStar(str, s, wild, w, mp, cp, starSeen, caseSensitive);
        w := w + 1;
        if w == |wild| {
          return true;
        }
        mp, cp := w, s + 1;
        starSeen := true;
      } else {
        RestStep(str, s, wild, w, caseSensitive);
        if w < |wild| && SameChar(wild[w], str[s], caseSensitive) {
          w, s := w + 1, s + 1;
        } else {
          LaterStep(str, cp, wild, mp, caseSensitive);
          w, s, cp := mp, cp, cp + 1;
        }
      }
    }

    if starSeen {
      assert wild[mp..][..w - mp] == wild[mp..w];
      NoLaterMatchAtEnd(str, cp, wild[mp..], w - mp, caseSensitive);
    }
    while w < |wild| && wild[w] == '*'
      invariant 0 <= w <= |wild|
      invariant Matches(str, wild, caseSensitive) <==> Rest(str, |str|, wild, w, caseSensitive)
    {
      RestAtEnd(str, wild, w, caseSensitive);
      w := w + 1;
    }
    RestAtEnd(str, wild, w, caseSensitive);
    return w == |wild|;
  }

  /** Whether a name passes a filter list; an empty list answers `matchEmpty`. */
  predicate MatchesSome(name: seq<char>, filters: seq<seq<char>>, matchEmpty: bool, caseSensitive: bool) {
    || (filters == [] && matchEmpty)
    || exists i :: 0 <= i < |filters| && Matches(name, filters[i], caseSensitive)
  }

  method MatchesAny(name: seq<char>, filters: seq<seq<char>>, matchEmpty: bool, caseSensitive: bool)
    returns (matched: bool)
    ensures matched <==> MatchesSome(name, filters, matchEmpty, caseSensitive)
  {
    if filters == [] && matchEmpty {
      return true;
    }
    for i := 0 to |filters|
      invariant forall j :: 0 <= j < i ==> !Matches(name, filters[j], caseSensitive)
    {
      var hit := WildCmp(name, filters[i], caseSensitive);
      if hit {
        return true;
      }
    }
    return false;
  }
}
