/** The list of words in a command line option: separated by commas, unless these are escaped. */
module CommaArgs {

  // ---------------------------------------------------------------------------------------
  // What the words of a text are
  // ---------------------------------------------------------------------------------------

  /** A backslash escapes a comma or another backslash. */
  predicate Escapable(c: char) {
    c == ',' || c == '\\'
  }

  /** The pieces between the commas that no backslash protects. */
  function Split(s: string): (pieces: seq<string>)
    ensures pieces != []
  {
    if s == "" then [""]
    else if s[0] == ',' then [""] + Split(s[1..])
    else
      var n := if s[0] == '\\' && |s| > 1 && Escapable(s[1]) then 2 else 1;
      var more := Split(s[n..]);
      [s[..n] + more[0]] + more[1..]
  }

  /** A backslash before anything that cannot be escaped, or at the end, stands for itself. */
  function Unescape(piece: string): string {
    if piece == "" then ""
    else if piece[0] == '\\' && |piece| > 1 && Escapable(piece[1]) then [piece[1]] + Unescape(piece[2..])
    else [piece[0]] + Unescape(piece[1..])
  }

  function UnescapeAll(pieces: seq<string>): (words: seq<string>)
    ensures |words| == |pieces|
  {
    if pieces == [] then [] else [Unescape(pieces[0])] + UnescapeAll(pieces[1..])
  }

  function NonEmpty(words: seq<string>): seq<string> {
    if words == [] then [] else (if words[0] == "" then [] else [words[0]]) + NonEmpty(words[1..])
  }

  function Words(s: string): seq<string> {
    NonEmpty(UnescapeAll(Split(s)))
  }

  // ---------------------------------------------------------------------------------------
  // The tokeniser
  // ---------------------------------------------------------------------------------------

  /** The words still to come when `word` has been collected since the last comma. */
  function Continue(word: string, s: string): seq<string> {
    var words := UnescapeAll(Split(s));
    NonEmpty([word + words[0]] + words[1..])
  }

  lemma ContinueFromStart(s: string)
    ensures Continue("", s) == Words(s)
  {
    var words := UnescapeAll(Split(s));
    assert "" + words[0] == words[0];
    assert [words[0]] + words[1..] == words;
  }

  lemma ContinueAtEnd(word: string)
    ensures Continue(word, "") == if word == "" then [] else [word]
    ensures Continue(word, "\\") == [word + "\\"]
  {
    assert [""][1..] == [] && word + "" == word && ["\\"][1..] == [];
    var b := "\\";
    assert b[1..] == "" && b[..1] + "" == b && [""][1..] == [];
    assert Split(b) == [b] + [];
    assert Unescape(b) == b;
    assert NonEmpty([word])[..] == if word == "" then [] else [word];
    assert [word + "\\"][1..] == [];
  }

  lemma ContinueAfterComma(word: string, s: string)
    ensures Continue(word, "," + s) == (if word == "" then [] else [word]) + Words(s)
  {
    assert ("," + s)[1..] == s;
    var words := UnescapeAll(Split(s));
    assert UnescapeAll([""] + Split(s)) == [""] + words by { assert ([""] + Split(s))[1..] == Split(s); }
    assert word + "" == word && ([""] + words)[1..] == words;
    assert [word] + ([""] + words)[1..] == [word] + words;
    assert ([word] + words)[1..] == words;
  }

  /** A character that stands for itself. */
  lemma ContinueAfterPlain(word: string, c: char, s: string)
    requires c != ',' && (c == '\\' ==> s != "" && !Escapable(s[0]))
    ensures Continue(word, [c] + s) == Continue(word + [c], s)
  {
    var t := [c] + s;
    assert t[1..] == s && t[..1] == [c];
    var more := Split(s);
    assert Split(t) == [[c] + more[0]] + more[1..];
    assert Unescape([c] + more[0]) == [c] + Unescape(more[0]) by {
      SplitStart(s);
      assert ([c] + more[0])[1..] == more[0];
    }
    ContinueWith(word, [c], [c], t, s);
  }

  lemma ContinueAfterEscape(word: string, c: char, s: string)
    requires Escapable(c)
    ensures Continue(word, "\\" + [c] + s) == Continue(word + [c], s)
  {
    var t := "\\" + [c] + s;
    assert t[2..] == s && t[..2] == "\\" + [c];
    var more := Split(s);
    assert Split(t) == [t[..2] + more[0]] + more[1..];
    assert (t[..2] + more[0])[2..] == more[0];
    ContinueWith(word, t[..2], [c], t, s);
  }

  lemma ContinueWith(word: string, raw: string, meant: string, t: string, s: string)
    requires Split(t) == [raw + Split(s)[0]] + Split(s)[1..]
    requires Unescape(raw + Split(s)[0]) == meant + Unescape(Split(s)[0])
    ensures Continue(word, t) == Continue(word + meant, s)
  {
    var words := UnescapeAll(Split(s));
    assert Split(t)[1..] == Split(s)[1..];
    assert UnescapeAll(Split(t)) == [meant + words[0]] + words[1..];
    assert word + (meant + words[0]) == word + meant + words[0];
    assert ([meant + words[0]] + words[1..])[1..] == words[1..];
  }

  /** The first piece starts the way the text does. */
  lemma SplitStart(s: string)
    ensures Split(s)[0] == "" || (s != "" && Split(s)[0][0] == s[0])
  {
  }

  method ParseCommaSepArgs(filters: string) returns (res: seq<string>)
    ensures res == Words(filters)
  {
    res := [];
    var word := "";
    var seenBackslash := false;
    var k := 0;
    hide Continue, Words, Split, UnescapeAll, NonEmpty;
    ContinueFromStart(filters);
    assert "" + filters[0..] == filters;
    while k < |filters|
      invariant 0 <= k <= |filters|
      invariant Words(filters) == res + Continue(word, (if seenBackslash then "\\" else "") + filters[k..])
    {
      var c := filters[k];
      assert filters[k..] == [c] + filters[k + 1..];
      ghost var rest := filters[k + 1..];
      k := k + 1;
      if seenBackslash && Escapable(c) {
        seenBackslash := false;
        assert "\\" + ([c] + rest) == "\\" + [c] + rest;
        ContinueAfterEscape(word, c, rest);
        word := word + [c];
        assert "" + rest == rest;
      } else {
        if seenBackslash {
          ContinueAfterPlain(word, '\\', [c] + rest);
          seenBackslash := false;
          word := word + ['\\'];
        }
        assert "" + ([c] + rest) == [c] + rest && "" + rest == rest;
        if c == '\\' {
          seenBackslash := true;
        } else if c == ',' {
          ContinueAfterComma(word, rest);
          ContinueFromStart(rest);
          if word != "" {
            res := res + [word];
          }
          word := "";
        } else {
          ContinueAfterPlain(word, c, rest);
          word := word + [c];
        }
      }
    }
    assert filters[k..] == "" && "\\" + "" == "\\" && "" + "" == "";
    ContinueAtEnd(word);
    if seenBackslash {
      word := word + ['\\'];
    }
    if word != "" {
      res := res + [word];
    }
  }

  // ---------------------------------------------------------------------------------------
  // Round trip
  // ---------------------------------------------------------------------------------------

  function Escape(word: string): string {
    if word == "" then "" else (if Escapable(word[0]) then "\\" + [word[0]] else [word[0]]) + Escape(word[1..])
  }

  function JoinEscaped(words: seq<string>): string {
    if words == [] then ""
    else if |words| == 1 then Escape(words[0])
    else Escape(words[0]) + "," + JoinEscaped(words[1..])
  }

  lemma {:induction false} ContinueAfterEscaped(word: string, t: string, s: string)
    requires s == "" || s[0] == ','
    ensures Continue(word, Escape(t) + s) == Continue(word + t, s)
    decreases |t|
  {
    hide Continue;
    if t == "" {
      assert Escape(t) + s == s && word + t == word;
    } else {
      var rest := Escape(t[1..]) + s;
      var c := t[0];
      if Escapable(c) {
        assert Escape(t) + s == "\\" + [c] + rest;
        ContinueAfterEscape(word, c, rest);
      } else {
        assert Escape(t) + s == [c] + rest;
        ContinueAfterPlain(word, c, rest);
      }
      ContinueAfterEscaped(word + [c], t[1..], s);
      assert word + [c] + t[1..] == word + t;
    }
  }

  /** Words that are escaped and joined with commas are found again, in order, except that empty
      ones are dropped. */
  lemma {:induction false} RoundTrip(words: seq<string>)
    ensures Words(JoinEscaped(words)) == NonEmpty(words)
    decreases |words|
  {
    hide Continue, Words, Split, UnescapeAll;
    if words == [] {
      ContinueFromStart("");
      ContinueAtEnd("");
    } else if |words| == 1 {
      var t := Escape(words[0]);
      assert t + "" == t && "" + words[0] == words[0];
      ContinueFromStart(t);
      ContinueAfterEscaped("", words[0], "");
      ContinueAtEnd(words[0]);
      assert words[1..] == [];
    } else {
      var rest := JoinEscaped(words[1..]);
      assert JoinEscaped(words) == Escape(words[0]) + ("," + rest) && "" + words[0] == words[0];
      ContinueFromStart(JoinEscaped(words));
      ContinueAfterEscaped("", words[0], "," + rest);
      ContinueAfterComma(words[0], rest);
      RoundTrip(words[1..]);
    }
  }

  lemma {:induction false} AllNonEmpty(words: seq<string>)
    requires "" !in words
    ensures NonEmpty(words) == words
  {
    if words != [] {
      AllNonEmpty(words[1..]);
    }
  }

  /** Hence non-empty words survive the round trip through the tokeniser. */
  lemma WordsSurvive(words: seq<string>)
    requires "" !in words
    ensures Words(JoinEscaped(words)) == words
  {
    RoundTrip(words);
    AllNonEmpty(words);
  }
}
