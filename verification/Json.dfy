/** JSON text as the RapidJSON writer prints it and its reader accepts it. A number keeps the
    characters it was written with; strings are sequences of Unicode characters. */
module Json {
  import opened Basics

  datatype Member = Member(name: string, value: Value)

  datatype Value =
    | Null
    | Bool(b: bool)
    | Num(lexeme: string)
    | Str(s: string)
    | Arr(elems: seq<Value>)
    | Obj(members: seq<Member>)

  // ---------------------------------------------------------------------------------------
  // Writer
  // ---------------------------------------------------------------------------------------

  /** RFC 8259, section 7: quotation mark, reverse solidus and control characters. */
  predicate NeedsEscape(c: char) {
    c == '"' || c == '\\' || c < ' '
  }

  function EscapeChar(c: char): string {
    if c == '"' then "\\\""
    else if c == '\\' then "\\\\"
    else if c as int == 8 then "\\b"
    else if c as int == 9 then "\\t"
    else if c as int == 10 then "\\n"
    else if c as int == 12 then "\\f"
    else if c as int == 13 then "\\r"
    else if c < ' ' then "\\u00" + [HexDigit(c as int / 16), HexDigit(c as int % 16)]
    else [c]
  }

  function Escape(s: string): string {
    if s == "" then "" else EscapeChar(s[0]) + Escape(s[1..])
  }

  function Print(v: Value): string
    decreases v, 0
  {
    match v
    case Null => "null"
    case Bool(b) => if b then "true" else "false"
    case Num(lexeme) => lexeme
    case Str(s) => "\"" + Escape(s) + "\""
    case Arr(elems) => "[" + PrintElems(elems) + "]"
    case Obj(members) => "{" + PrintMembers(members) + "}"
  }

  function PrintElems(elems: seq<Value>): string
    decreases elems, 1
  {
    if elems == [] then ""
    else if |elems| == 1 then Print(elems[0])
    else Print(elems[0]) + "," + PrintElems(elems[1..])
  }

  function PrintName(name: string): string {
    "\"" + Escape(name) + "\":"
  }

  function PrintMembers(members: seq<Member>): string
    decreases members, 1
  {
    if members == [] then ""
    else
      PrintName(members[0].name) + Print(members[0].value)
      + (if |members| == 1 then "" else "," + PrintMembers(members[1..]))
  }

  // ---------------------------------------------------------------------------------------
  // Reader
  // ---------------------------------------------------------------------------------------

  /** What a reading function found, and the text after it. */
  datatype Parsed<T> = Fail | Ok(value: T, rest: string)

  function SkipSpace(s: string): (r: string)
    ensures |r| <= |s|
  {
    if s != "" && (s[0] == ' ' || s[0] == '\n' || s[0] == '\r' || s[0] == '\t') then SkipSpace(s[1..]) else s
  }

  predicate Digit(c: char) {
    '0' <= c <= '9'
  }

  predicate NumberChar(c: char) {
    Digit(c) || c == '+' || c == '-' || c == '.' || c == 'e' || c == 'E'
  }

  function NumberLength(s: string): (n: nat)
    ensures n <= |s|
  {
    if s != "" && NumberChar(s[0]) then 1 + NumberLength(s[1..]) else 0
  }

  function DropDigits(s: string): (r: string)
    ensures |r| <= |s|
  {
    if s != "" && Digit(s[0]) then DropDigits(s[1..]) else s
  }

  /** One digit at least, then whatever follows the digits. */
  predicate DigitsThen(s: string, what: string -> bool) {
    s != "" && Digit(s[0]) && what(DropDigits(s))
  }

  predicate ValidExponent(s: string) {
    s == "" || ((s[0] == 'e' || s[0] == 'E') &&
      var t := s[1..];
      DigitsThen(if t != "" && (t[0] == '+' || t[0] == '-') then t[1..] else t, r => r == ""))
  }

  predicate ValidFraction(s: string) {
    if s != "" && s[0] == '.' then DigitsThen(s[1..], ValidExponent) else ValidExponent(s)
  }

  /** RFC 8259, section 6. */
  predicate ValidNumber(s: string) {
    var t := if s != "" && s[0] == '-' then s[1..] else s;
    if t != "" && t[0] == '0' then ValidFraction(t[1..]) else DigitsThen(t, ValidFraction)
  }

  /** The four hexadecimal digits of a \u escape. */
  function Hex4(s: string): (r: Option<nat>)
    ensures r.Some? ==> |s| >= 4 && r.value < 0x1_0000
  {
    if |s| < 4 then None
    else
      var a, b, c, d := HexValue(s[0]), HexValue(s[1]), HexValue(s[2]), HexValue(s[3]);
      if a.Some? && b.Some? && c.Some? && d.Some?
      then Some(a.value * 0x1000 + b.value * 0x100 + c.value * 0x10 + d.value)
      else None
  }

  /** One character after a reverse solidus: the character meant and how much text it took. */
  function Unescape(s: string): (r: Parsed<char>)
    ensures r.Ok? ==> |r.rest| < |s|
  {
    if s == "" then Fail
    else if s[0] == '"' || s[0] == '\\' || s[0] == '/' then Ok(s[0], s[1..])
    else if s[0] == 'b' then Ok(8 as char, s[1..])
    else if s[0] == 't' then Ok(9 as char, s[1..])
    else if s[0] == 'n' then Ok(10 as char, s[1..])
    else if s[0] == 'f' then Ok(12 as char, s[1..])
    else if s[0] == 'r' then Ok(13 as char, s[1..])
    else if s[0] == 'u' then
      match Hex4(s[1..])
      case None => Fail
      case Some(high) =>
        if high < 0xD800 || 0xDFFF < high then Ok(high as char, s[5..])
        else if 0xDBFF < high || |s| < 7 || s[5] != '\\' || s[6] != 'u' then Fail
        else
          match Hex4(s[7..])
          case None => Fail
          case Some(low) =>
            if low < 0xDC00 || 0xDFFF < low then Fail
            else Ok(((high - 0xD800) * 0x400 + (low - 0xDC00) + 0x1_0000) as char, s[11..])
    else Fail
  }

  /** The characters of a string up to its closing quotation mark. */
  function ReadChars(s: string): (r: Parsed<string>)
    ensures r.Ok? ==> |r.rest| < |s|
    decreases |s|
  {
    if s == "" then Fail
    else if s[0] == '"' then Ok("", s[1..])
    else if s[0] == '\\' then
      match Unescape(s[1..])
      case Fail => Fail
      case Ok(c, rest) =>
        match ReadChars(rest)
        case Fail => Fail
        case Ok(more, rest') => Ok([c] + more, rest')
    else if s[0] < ' ' then Fail
    else
      match ReadChars(s[1..])
      case Fail => Fail
      case Ok(more, rest) => Ok([s[0]] + more, rest)
  }

  function ReadWord(s: string, word: string, v: Value): (r: Parsed<Value>)
    requires word != ""
    ensures r.Ok? ==> |r.rest| < |s|
  {
    if word <= s then Ok(v, s[|word|..]) else Fail
  }

  function ReadNumber(s: string): (r: Parsed<Value>)
    ensures r.Ok? ==> |r.rest| < |s|
  {
    var n := NumberLength(s);
    if ValidNumber(s[..n]) then Ok(Num(s[..n]), s[n..]) else Fail
  }

  function ReadValue(s: string): (r: Parsed<Value>)
    ensures r.Ok? ==> |r.rest| < |s|
    decreases |s|, 0
  {
    if s == "" then Fail
    else if s[0] == 'n' then ReadWord(s, "null", Null)
    else if s[0] == 't' then ReadWord(s, "true", Bool(true))
    else if s[0] == 'f' then ReadWord(s, "false", Bool(false))
    else if s[0] == '"' then
      match ReadChars(s[1..])
      case Fail => Fail
      case Ok(cs, rest) => Ok(Str(cs), rest)
    else if s[0] == '[' then
      var t := SkipSpace(s[1..]);
      if t != "" && t[0] == ']' then Ok(Arr([]), t[1..])
      else
        match ReadElems(t)
        case Fail => Fail
        case Ok(elems, rest) => Ok(Arr(elems), rest)
    else if s[0] == '{' then
      var t := SkipSpace(s[1..]);
      if t != "" && t[0] == '}' then Ok(Obj([]), t[1..])
      else
        match ReadMembers(t)
        case Fail => Fail
        case Ok(members, rest) => Ok(Obj(members), rest)
    else ReadNumber(s)
  }

  function ReadElems(s: string): (r: Parsed<seq<Value>>)
    ensures r.Ok? ==> |r.rest| < |s| && r.value != []
    decreases |s|, 1
  {
    match ReadValue(s)
    case Fail => Fail
    case Ok(v, rest) =>
      var t := SkipSpace(rest);
      if t == "" then Fail
      else if t[0] == ']' then Ok([v], t[1..])
      else if t[0] != ',' then Fail
      else
        match ReadElems(SkipSpace(t[1..]))
        case Fail => Fail
        case Ok(more, rest') => Ok([v] + more, rest')
  }

  function ReadMembers(s: string): (r: Parsed<seq<Member>>)
    ensures r.Ok? ==> |r.rest| < |s| && r.value != []
    decreases |s|, 1
  {
    if s == "" || s[0] != '"' then Fail
    else
      match ReadChars(s[1..])
      case Fail => Fail
      case Ok(name, rest) =>
        var t := SkipSpace(rest);
        if t == "" || t[0] != ':' then Fail
        else
          match ReadValue(SkipSpace(t[1..]))
          case Fail => Fail
          case Ok(v, rest') =>
            var u := SkipSpace(rest');
            if u == "" then Fail
            else if u[0] == '}' then Ok([Member(name, v)], u[1..])
            else if u[0] != ',' then Fail
            else
              match ReadMembers(SkipSpace(u[1..]))
              case Fail => Fail
              case Ok(more, rest'') => Ok([Member(name, v)] + more, rest'')
  }

  /** A whole document: one value, with nothing but white space around it. */
  function Parse(text: string): Option<Value> {
    match ReadValue(SkipSpace(text))
    case Fail => None
    case Ok(v, rest) => if SkipSpace(rest) == "" then Some(v) else None
  }

  // ---------------------------------------------------------------------------------------
  // Reading back what was written
  // ---------------------------------------------------------------------------------------

  /** Every number in the value is one a writer can produce. */
  predicate Writable(v: Value)
    decreases v
  {
    match v
    case Num(lexeme) => ValidNumber(lexeme) && NumberLength(lexeme) == |lexeme|
    case Arr(elems) => forall i :: 0 <= i < |elems| ==> Writable(elems[i])
    case Obj(members) => forall i :: 0 <= i < |members| ==> Writable(members[i].value)
    case _ => true
  }

  /** The text does not go on with a character of a number. */
  predicate EndsNumber(s: string) {
    s == "" || !NumberChar(s[0])
  }

  lemma ReadShortEscape(c: char, rest: string)
    requires NeedsEscape(c) && |EscapeChar(c)| == 2
    ensures EscapeChar(c)[0] == '\\' && Unescape((EscapeChar(c) + rest)[1..]) == Ok(c, rest)
  {
    var t := (EscapeChar(c) + rest)[1..];
    assert t == [EscapeChar(c)[1]] + rest && t[1..] == rest;
  }

  lemma HexDigitReads(n: nat)
    requires n < 16
    ensures HexValue(HexDigit(n)) == Some(n)
  {
  }

  lemma ReadHexEscape(n: nat, rest: string)
    requires n < 32
    ensures Unescape("u00" + [HexDigit(n / 16), HexDigit(n % 16)] + rest) == Ok(n as char, rest)
  {
    HexDigitReads(0);
    HexDigitReads(n / 16);
    HexDigitReads(n % 16);
    assert HexValue('0') == Some(0);
    hide HexDigit, HexValue;
    var t := "u00" + [HexDigit(n / 16), HexDigit(n % 16)] + rest;
    var digits := t[1..];
    assert digits[0] == '0' && digits[1] == '0' && digits[2] == HexDigit(n / 16) && digits[3] == HexDigit(n % 16);
    assert Hex4(digits) == Some(n);
    hide Hex4;
    assert t[5..] == rest;
  }

  lemma ReadEscapedChar(c: char, rest: string)
    ensures NeedsEscape(c) ==>
              EscapeChar(c)[0] == '\\' && Unescape((EscapeChar(c) + rest)[1..]) == Ok(c, rest)
    ensures !NeedsEscape(c) ==> EscapeChar(c) == [c]
  {
    if NeedsEscape(c) {
      if |EscapeChar(c)| == 2 {
        ReadShortEscape(c, rest);
      } else {
        hide Unescape, HexDigit;
        var n := c as int;
        ReadHexEscape(n, rest);
        assert (EscapeChar(c) + rest)[1..] == "u00" + [HexDigit(n / 16), HexDigit(n % 16)] + rest;
      }
    }
  }

  /** The reader, at one character of a string. */
  lemma ReadOneChar(c: char, code: string, more: string, s: string, rest: string)
    requires code != "" && ReadChars(more) == Ok(s, rest)
    requires if NeedsEscape(c) then code[0] == '\\' && Unescape((code + more)[1..]) == Ok(c, more) else code == [c]
    ensures ReadChars(code + more) == Ok([c] + s, rest)
  {
    hide Unescape;
    if !NeedsEscape(c) {
      assert (code + more)[1..] == more;
    }
  }

  lemma {:induction false} ReadEscaped(s: string, rest: string)
    ensures ReadChars(Escape(s) + "\"" + rest) == Ok(s, rest)
  {
    if s == "" {
      assert Escape(s) + "\"" + rest == "\"" + rest && ("\"" + rest)[1..] == rest;
    } else {
      var code, more := EscapeChar(s[0]), Escape(s[1..]) + "\"" + rest;
      assert Escape(s) + "\"" + rest == code + more;
      ReadEscapedChar(s[0], more);
      hide ReadChars, Unescape, EscapeChar, Escape;
      ReadEscaped(s[1..], rest);
      ReadOneChar(s[0], code, more, s[1..], rest);
      assert s == [s[0]] + s[1..];
    }
  }

  lemma {:induction false} NumberLengthStops(lexeme: string, rest: string)
    requires NumberLength(lexeme) == |lexeme| && EndsNumber(rest)
    ensures NumberLength(lexeme + rest) == |lexeme|
  {
    if lexeme == "" {
      assert lexeme + rest == rest;
    } else {
      assert (lexeme + rest)[1..] == lexeme[1..] + rest;
      NumberLengthStops(lexeme[1..], rest);
    }
  }

  lemma NumbersAreRead(text: string)
    requires text != "" && NumberChar(text[0])
    ensures ReadValue(text) == ReadNumber(text)
  {
    hide ReadNumber, ReadChars, ReadElems, ReadMembers;
  }

  lemma NumbersStart(lexeme: string)
    requires Writable(Num(lexeme))
    ensures lexeme != "" && NumberChar(lexeme[0])
  {
  }

  lemma ReadPrintedNumber(lexeme: string, rest: string)
    requires Writable(Num(lexeme)) && EndsNumber(rest)
    ensures lexeme != "" && ReadValue(Print(Num(lexeme)) + rest) == Ok(Num(lexeme), rest)
  {
    NumbersStart(lexeme);
    NumberLengthStops(lexeme, rest);
    hide ValidNumber, NumberLength, ReadValue;
    NumbersAreRead(lexeme + rest);
    assert (lexeme + rest)[..|lexeme|] == lexeme && (lexeme + rest)[|lexeme|..] == rest;
  }

  /** A character that neither white space nor the end of a list starts with. */
  predicate Starts(s: string) {
    s != "" && s[0] != ' ' && s[0] != '\n' && s[0] != '\r' && s[0] != '\t' && s[0] != ']' && s[0] != '}'
  }

  lemma PrintStarts(v: Value, rest: string)
    requires Writable(v)
    ensures Starts(Print(v) + rest) && SkipSpace(Print(v) + rest) == Print(v) + rest
  {
    if v.Num? {
      assert v.lexeme != "" && NumberChar(v.lexeme[0]);
    }
  }

  // The reader, one construct at a time.

  lemma ReadArray(text: string, elems: seq<Value>, rest: string)
    requires Starts(text) && ReadElems(text) == Ok(elems, rest)
    ensures ReadValue("[" + text) == Ok(Arr(elems), rest)
  {
    assert ("[" + text)[1..] == text;
  }

  lemma ReadObject(text: string, members: seq<Member>, rest: string)
    requires Starts(text) && ReadMembers(text) == Ok(members, rest)
    ensures ReadValue("{" + text) == Ok(Obj(members), rest)
  {
    assert ("{" + text)[1..] == text;
  }

  lemma ReadLastElem(text: string, v: Value, rest: string)
    requires ReadValue(text) == Ok(v, "]" + rest)
    ensures ReadElems(text) == Ok([v], rest)
  {
    assert ("]" + rest)[1..] == rest;
  }

  lemma ReadNextElem(text: string, v: Value, text': string, more: seq<Value>, rest: string)
    requires ReadValue(text) == Ok(v, "," + text')
    requires ReadElems(SkipSpace(text')) == Ok(more, rest)
    ensures ReadElems(text) == Ok([v] + more, rest)
  {
    assert ("," + text')[1..] == text';
  }

  lemma ReadName(name: string, text: string)
    ensures var all := PrintName(name) + text;
            all[0] == '"' && ReadChars(all[1..]) == Ok(name, ":" + text) && (":" + text)[1..] == text
  {
    var all := PrintName(name) + text;
    assert all[1..] == Escape(name) + "\"" + (":" + text);
    ReadEscaped(name, ":" + text);
  }

  /** A member's name, colon and value. */
  lemma ReadMember(name: string, text: string, v: Value, text': string)
    requires Starts(text) && ReadValue(text) == Ok(v, text')
    ensures var u := SkipSpace(text');
            ReadMembers(PrintName(name) + text) ==
            if u == "" then Fail
            else if u[0] == '}' then Ok([Member(name, v)], u[1..])
            else if u[0] != ',' then Fail
            else
              match ReadMembers(SkipSpace(u[1..]))
              case Fail => Fail
              case Ok(more, rest) => Ok([Member(name, v)] + more, rest)
  {
    assert SkipSpace(text) == text && SkipSpace(":" + text) == ":" + text;
    hide ReadValue, ReadChars, PrintName, SkipSpace, Starts;
    ReadName(name, text);
  }

  /** What follows the first element, up to the end of the array and beyond. */
  function AfterElem(elems: seq<Value>, rest: string): string
    requires elems != []
  {
    if |elems| == 1 then "]" + rest else "," + (PrintElems(elems[1..]) + "]" + rest)
  }

  function AfterMember(members: seq<Member>, rest: string): string
    requires members != []
  {
    if |members| == 1 then "}" + rest else "," + (PrintMembers(members[1..]) + "}" + rest)
  }

  lemma PrintElemsSplit(elems: seq<Value>, rest: string)
    requires elems != [] && Writable(elems[0])
    ensures PrintElems(elems) + "]" + rest == Print(elems[0]) + AfterElem(elems, rest)
    ensures Starts(PrintElems(elems) + "]" + rest)
    ensures SkipSpace(PrintElems(elems) + "]" + rest) == PrintElems(elems) + "]" + rest
    ensures EndsNumber(AfterElem(elems, rest))
  {
    var more := if |elems| == 1 then "" else "," + PrintElems(elems[1..]);
    assert PrintElems(elems) == Print(elems[0]) + more;
    hide Print, PrintElems, SkipSpace, Starts;
    PrintStarts(elems[0], AfterElem(elems, rest));
    AfterElemIs(elems, rest, more);
    RegroupThree(Print(elems[0]), more, "]", rest);
  }

  lemma AfterElemIs(elems: seq<Value>, rest: string, more: string)
    requires elems != [] && more == if |elems| == 1 then "" else "," + PrintElems(elems[1..])
    ensures AfterElem(elems, rest) == more + "]" + rest && EndsNumber(AfterElem(elems, rest))
  {
    hide PrintElems;
  }

  lemma RegroupThree(a: string, b: string, c: string, d: string)
    ensures a + b + c + d == a + (b + c + d)
  {
  }

  lemma PrintMembersSplit(members: seq<Member>, rest: string)
    requires members != []
    ensures PrintMembers(members) + "}" + rest ==
            PrintName(members[0].name) + (Print(members[0].value) + AfterMember(members, rest))
    ensures Starts(PrintMembers(members) + "}" + rest)
    ensures SkipSpace(PrintMembers(members) + "}" + rest) == PrintMembers(members) + "}" + rest
    ensures EndsNumber(AfterMember(members, rest))
  {
    var first, v := PrintName(members[0].name), Print(members[0].value);
    var more := if |members| == 1 then "" else "," + PrintMembers(members[1..]);
    assert PrintMembers(members) == first + v + more;
    NameIsQuoted(members[0].name);
    hide PrintMembers, Print, PrintName, Starts, SkipSpace;
    Regroup(first, v, more, "}", rest);
    AfterMemberIs(members, rest, more);
    QuoteStarts(first, v + (more + "}" + rest));
  }

  lemma NameIsQuoted(name: string)
    ensures PrintName(name) != "" && PrintName(name)[0] == '"'
  {
  }

  lemma AfterMemberIs(members: seq<Member>, rest: string, more: string)
    requires members != [] && more == if |members| == 1 then "" else "," + PrintMembers(members[1..])
    ensures AfterMember(members, rest) == more + "}" + rest && EndsNumber(AfterMember(members, rest))
  {
    hide PrintMembers;
  }

  lemma Regroup(a: string, b: string, c: string, d: string, e: string)
    ensures a + b + c + d + e == a + (b + (c + d + e))
  {
  }

  lemma QuoteStarts(first: string, s: string)
    requires first != "" && first[0] == '"'
    ensures Starts(first + s) && SkipSpace(first + s) == first + s
  {
  }

  lemma {:induction false} ReadPrinted(v: Value, rest: string)
    requires Writable(v) && EndsNumber(rest)
    ensures ReadValue(Print(v) + rest) == Ok(v, rest)
    decreases v, 0
  {
    match v
    case Arr(elems) => ReadPrintedArray(elems, rest);
    case Obj(members) => ReadPrintedObject(members, rest);
    case Num(lexeme) => ReadPrintedNumber(lexeme, rest);
    case Str(s) => ReadPrintedString(s, rest);
    case _ => ReadPrintedWord(v, rest);
  }

  lemma ReadPrintedWord(v: Value, rest: string)
    requires v.Null? || v.Bool?
    ensures ReadValue(Print(v) + rest) == Ok(v, rest)
  {
    hide ReadNumber, ReadChars, ReadElems, ReadMembers;
    var word := Print(v);
    assert (word + rest)[|word|..] == rest && word <= word + rest;
  }

  lemma ReadPrintedString(s: string, rest: string)
    ensures ReadValue(Print(Str(s)) + rest) == Ok(Str(s), rest)
  {
    hide ReadNumber, ReadChars, ReadElems, ReadMembers, Escape;
    var text := Print(Str(s)) + rest;
    assert text[0] == '"' && text[1..] == Escape(s) + "\"" + rest;
    ReadEscaped(s, rest);
  }

  lemma {:induction false} ReadPrintedArray(elems: seq<Value>, rest: string)
    requires forall i :: 0 <= i < |elems| ==> Writable(elems[i])
    ensures ReadValue(Print(Arr(elems)) + rest) == Ok(Arr(elems), rest)
    decreases elems, 2
  {
    if elems == [] {
      assert Print(Arr(elems)) + rest == "[]" + rest;
      assert ("[]" + rest)[1..] == "]" + rest && ("]" + rest)[1..] == rest;
    } else {
      var text := PrintElems(elems) + "]" + rest;
      assert Print(Arr(elems)) + rest == "[" + text;
      hide Print, PrintElems, ReadValue, ReadElems, SkipSpace, Starts;
      PrintElemsSplit(elems, rest);
      ReadPrintedElems(elems, rest);
      ReadArray(text, elems, rest);
    }
  }

  lemma {:induction false} ReadPrintedObject(members: seq<Member>, rest: string)
    requires forall i :: 0 <= i < |members| ==> Writable(members[i].value)
    ensures ReadValue(Print(Obj(members)) + rest) == Ok(Obj(members), rest)
    decreases members, 2
  {
    if members == [] {
      assert Print(Obj(members)) + rest == "{}" + rest;
      assert ("{}" + rest)[1..] == "}" + rest && ("}" + rest)[1..] == rest;
    } else {
      var text := PrintMembers(members) + "}" + rest;
      assert Print(Obj(members)) + rest == "{" + text;
      hide Print, PrintMembers, ReadValue, ReadMembers, SkipSpace, Starts;
      PrintMembersSplit(members, rest);
      ReadPrintedMembers(members, rest);
      ReadObject(text, members, rest);
    }
  }

  lemma {:induction false} ReadPrintedElems(elems: seq<Value>, rest: string)
    requires elems != [] && forall i :: 0 <= i < |elems| ==> Writable(elems[i])
    ensures ReadElems(PrintElems(elems) + "]" + rest) == Ok(elems, rest)
    decreases elems, 1
  {
    hide Print, PrintElems, ReadValue, ReadElems, SkipSpace, Starts, EndsNumber, Writable;
    var text := PrintElems(elems) + "]" + rest;
    PrintElemsSplit(elems, rest);
    ReadPrinted(elems[0], AfterElem(elems, rest));
    if |elems| == 1 {
      ReadLastElem(text, elems[0], rest);
      assert elems == [elems[0]];
    } else {
      var tail := elems[1..];
      PrintElemsSplit(tail, rest);
      ReadPrintedElems(tail, rest);
      ReadNextElem(text, elems[0], PrintElems(tail) + "]" + rest, tail, rest);
      assert elems == [elems[0]] + tail;
    }
  }

  lemma {:induction false} ReadPrintedMembers(members: seq<Member>, rest: string)
    requires members != [] && forall i :: 0 <= i < |members| ==> Writable(members[i].value)
    ensures ReadMembers(PrintMembers(members) + "}" + rest) == Ok(members, rest)
    decreases members, 1
  {
    hide Print, PrintName, PrintMembers, ReadValue, ReadMembers, EndsNumber, Writable;
    var name, v := members[0].name, members[0].value;
    var after := AfterMember(members, rest);
    PrintMembersSplit(members, rest);
    PrintStarts(v, after);
    ReadPrinted(v, after);
    ReadMember(name, Print(v) + after, v, after);
    assert SkipSpace(after) == after;
    if |members| == 1 {
      assert after[1..] == rest;
      assert members == [Member(name, v)];
    } else {
      var tail := members[1..];
      assert after[1..] == PrintMembers(tail) + "}" + rest;
      PrintMembersSplit(tail, rest);
      ReadPrintedMembers(tail, rest);
      assert members == [Member(name, v)] + tail;
    }
  }

  /** Printing a value and parsing the text gives the value back. */
  lemma ParsePrint(v: Value)
    requires Writable(v)
    ensures Parse(Print(v)) == Some(v)
  {
    ReadPrinted(v, "");
    PrintStarts(v, "");
    assert Print(v) + "" == Print(v);
  }

  /** A string that may be written between quotation marks as it is. */
  predicate Plain(s: string) {
    forall i :: 0 <= i < |s| ==> !NeedsEscape(s[i])
  }

  lemma {:induction false} EscapePlain(s: string)
    requires Plain(s)
    ensures Escape(s) == s
  {
    if s != "" {
      EscapePlain(s[1..]);
      assert s == [s[0]] + s[1..];
    }
  }

  /** Two objects printed one right after the other are not a document. */
  lemma TwoObjectsDoNotParse(a: Value, b: Value, rest: string)
    requires Writable(a) && a.Obj? && b.Obj?
    ensures Parse(Print(a) + (Print(b) + rest)) == None
  {
    ReadPrinted(a, Print(b) + rest);
    PrintStarts(a, Print(b) + rest);
  }

  predicate NoNul(s: string) {
    forall i :: 0 <= i < |s| ==> s[i] != '\0'
  }

  lemma {:induction false} EscapeHasNoNul(s: string)
    ensures NoNul(Escape(s))
  {
    if s != "" {
      EscapeHasNoNul(s[1..]);
    }
  }

  lemma {:induction false} NumbersHaveNoNul(s: string)
    requires NumberLength(s) == |s|
    ensures NoNul(s)
  {
    if s != "" {
      NumbersHaveNoNul(s[1..]);
    }
  }

  lemma NoNulAppend(a: string, b: string)
    requires NoNul(a) && NoNul(b)
    ensures NoNul(a + b)
  {
  }

  /** What the writer prints survives being handled as a C string. */
  lemma {:induction false} PrintHasNoNul(v: Value)
    requires Writable(v)
    ensures NoNul(Print(v))
    decreases v, 0
  {
    match v
    case Str(s) => EscapeHasNoNul(s);
    case Num(lexeme) => NumbersHaveNoNul(lexeme);
    case Arr(elems) => ElemsHaveNoNul(elems);
    case Obj(members) => MembersHaveNoNul(members);
    case _ =>
  }

  lemma {:induction false} ElemsHaveNoNul(elems: seq<Value>)
    requires forall i :: 0 <= i < |elems| ==> Writable(elems[i])
    ensures NoNul(PrintElems(elems))
    decreases elems, 1
  {
    if elems != [] {
      PrintHasNoNul(elems[0]);
      ElemsHaveNoNul(elems[1..]);
    }
  }

  lemma {:induction false} MembersHaveNoNul(members: seq<Member>)
    requires forall i :: 0 <= i < |members| ==> Writable(members[i].value)
    ensures NoNul(PrintMembers(members))
    decreases members, 1
  {
    if members != [] {
      EscapeHasNoNul(members[0].name);
      PrintHasNoNul(members[0].value);
      MembersHaveNoNul(members[1..]);
      NoNulAppend(PrintName(members[0].name), Print(members[0].value));
    }
  }
}
