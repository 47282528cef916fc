/** OCPP-J frames: how they are spliced together and what a received text means. Section 4.2
    of OCPP-J 1.6 gives the three message structures. */
module RpcFrame {
  import opened Basics
  import opened Json

  const ERROR_PROTOCOL := "ProtocolError"
  const ERROR_NOT_IMPLEMENTED := "NotImplemented"
  const ERROR_TYPE_CONSTRAINT := "TypeConstraintViolation"

  // ---------------------------------------------------------------------------------------
  // Sending: identifiers, actions, codes and messages are spliced in without escaping
  // ---------------------------------------------------------------------------------------

  function CallText(id: string, action: string, payload: Value): string {
    "[2, \"" + id + "\", \"" + action + "\", " + Print(payload) + "]"
  }

  function ResultText(id: string, payload: Value): string {
    "[3, \"" + id + "\", " + Print(payload) + "]"
  }

  function ErrorText(id: string, code: string, message: string): string {
    "[4, \"" + id + "\", \"" + code + "\", \"" + message + "\", {}]"
  }

  // ---------------------------------------------------------------------------------------
  // Receiving
  // ---------------------------------------------------------------------------------------

  /** A string handled as a C string ends at its first NUL. */
  function CStr(s: string): string {
    if s == "" || s[0] == '\0' then "" else [s[0]] + CStr(s[1..])
  }

  predicate AllDigits(s: string) {
    s != "" && forall i :: 0 <= i < |s| ==> Digit(s[i])
  }

  function DigitsValue(s: string): nat
    requires forall i :: 0 <= i < |s| ==> Digit(s[i])
  {
    if s == "" then 0
    else
      assert Digit(s[|s| - 1]);
      DigitsValue(s[..|s| - 1]) * 10 + (s[|s| - 1] as int - '0' as int)
  }

  /** The value of a JSON number that is an unsigned 32-bit integer. */
  function Uint(v: Value): Option<nat> {
    if v.Num? && v.lexeme == "-0" then Option.Some(0)
    else if v.Num? && AllDigits(v.lexeme) && DigitsValue(v.lexeme) < 0x1_0000_0000 then
      Option.Some(DigitsValue(v.lexeme))
    else Option.None
  }

  datatype Frame =
    | Call(id: string, action: string, payload: Value)
    | CallResult(id: string, payload: Value)
    | CallError(id: string, code: string, message: string, payload: Value)
    | Malformed

  /** [2, "<id>", "<action>", {...}] */
  predicate IsCall(v: Value) {
    v.Arr? && |v.elems| == 4 && Uint(v.elems[0]) == Option.Some(2)
    && v.elems[1].Str? && v.elems[2].Str? && v.elems[3].Obj?
  }

  /** [3, "<id>", {...}] */
  predicate IsCallResult(v: Value) {
    v.Arr? && |v.elems| == 3 && Uint(v.elems[0]) == Option.Some(3) && v.elems[1].Str? && v.elems[2].Obj?
  }

  /** [4, "<id>", "<code>", "<message>", {...}] */
  predicate IsCallError(v: Value) {
    v.Arr? && |v.elems| == 5 && Uint(v.elems[0]) == Option.Some(4)
    && v.elems[1].Str? && v.elems[2].Str? && v.elems[3].Str? && v.elems[4].Obj?
  }

  /** What a received text means: one of the three message structures, or none of them. */
  function Meaning(text: string): Frame {
    match Parse(CStr(text))
    case None => Malformed
    case Some(v) =>
      if IsCall(v) then Call(CStr(v.elems[1].s), CStr(v.elems[2].s), v.elems[3])
      else if IsCallResult(v) then CallResult(CStr(v.elems[1].s), v.elems[2])
      else if IsCallError(v) then CallError(CStr(v.elems[1].s), CStr(v.elems[2].s), CStr(v.elems[3].s), v.elems[4])
      else Malformed
  }

  // ---------------------------------------------------------------------------------------
  // Round trips
  // ---------------------------------------------------------------------------------------

  lemma {:induction false} CStrOfNoNul(s: string)
    requires NoNul(s)
    ensures CStr(s) == s
  {
    if s != "" {
      CStrOfNoNul(s[1..]);
    }
  }

  lemma PlainHasNoNul(s: string)
    requires Plain(s)
    ensures NoNul(s) && CStr(s) == s
  {
    forall i | 0 <= i < |s| ensures s[i] != '\0' {
      assert !NeedsEscape(s[i]);
    }
    CStrOfNoNul(s);
  }

  lemma AfterComma(more: string)
    requires Starts(more)
    ensures ", " + more == "," + (" " + more) && SkipSpace(" " + more) == more
  {
    assert (" " + more)[1..] == more;
    assert SkipSpace(more) == more;
  }

  /** Reading one element of a frame, of any kind, followed by a comma and a space. */
  lemma ReadElemThen(text: string, v: Value, more: string, elems: seq<Value>, rest: string)
    requires ReadValue(text + ", " + more) == Ok(v, ", " + more)
    requires Starts(more) && ReadElems(more) == Ok(elems, rest)
    ensures ReadElems(text + ", " + more) == Ok([v] + elems, rest)
  {
    AfterComma(more);
    hide ReadElems, ReadValue, SkipSpace, Starts;
    ReadNextElem(text + ", " + more, v, " " + more, elems, rest);
  }

  /** The printed form of a plain string. */
  lemma PrintPlain(s: string, more: string)
    requires Plain(s)
    ensures "\"" + s + "\", " + more == Print(Str(s)) + ", " + more == Print(Str(s)) + (", " + more)
  {
    EscapePlain(s);
    hide Escape, Plain;
  }

  lemma ReadQuotedElemThen(s: string, more: string, elems: seq<Value>, rest: string)
    requires Plain(s) && Starts(more) && ReadElems(more) == Ok(elems, rest)
    ensures ReadElems("\"" + s + "\", " + more) == Ok([Str(s)] + elems, rest)
    ensures Starts("\"" + s + "\", " + more)
  {
    PrintPlain(s, more);
    hide ReadElems, ReadValue, Print, Plain;
    ReadPrinted(Str(s), ", " + more);
    ReadElemThen(Print(Str(s)), Str(s), more, elems, rest);
  }

  lemma ReadLastPayload(payload: Value)
    requires Writable(payload)
    ensures ReadElems(Print(payload) + "]") == Ok([payload], "") && Starts(Print(payload) + "]")
  {
    ReadPrinted(payload, "]");
    assert "]" + "" == "]";
    ReadLastElem(Print(payload) + "]", payload, "");
    PrintStarts(payload, "]");
  }

  /** A whole frame, given what follows its type digit. */
  lemma ParseFrame(digit: char, more: string, elems: seq<Value>)
    requires Digit(digit) && digit != '0' && Starts(more) && ReadElems(more) == Ok(elems, "")
    ensures Parse("[" + [digit] + ", " + more) == Some(Arr([Num([digit])] + elems))
  {
    var text := [digit] + ", " + more;
    var n := [digit];
    assert n[1..] == "" && DropDigits(n) == "" && NumberLength(n) == 1;
    assert Writable(Num(n));
    ReadPrintedNumber(n, ", " + more);
    assert text == n + (", " + more);
    ReadElemThen(n, Num(n), more, elems, "");
    ReadArray(text, [Num(n)] + elems, "");
    assert "[" + [digit] + ", " + more == "[" + text;
  }

  lemma TypeDigit(digit: char)
    requires digit == '2' || digit == '3' || digit == '4'
    ensures Uint(Num([digit])) == Option.Some(digit as int - '0' as int)
  {
    assert [digit][..0] == "";
    assert DigitsValue([digit]) == DigitsValue("") * 10 + (digit as int - '0' as int);
  }

  lemma MeaningIs(text: string, v: Value)
    requires NoNul(text) && Parse(text) == Option.Some(v)
    ensures IsCall(v) ==> Meaning(text) == Call(CStr(v.elems[1].s), CStr(v.elems[2].s), v.elems[3])
    ensures IsCallResult(v) ==> Meaning(text) == CallResult(CStr(v.elems[1].s), v.elems[2])
    ensures IsCallError(v) ==>
              Meaning(text) == CallError(CStr(v.elems[1].s), CStr(v.elems[2].s), CStr(v.elems[3].s), v.elems[4])
  {
    CStrOfNoNul(text);
  }

  // The part of each frame after its type digit.

  function Quoted(s: string): string {
    "\"" + s + "\", "
  }

  function Last(payload: Value): string {
    Print(payload) + "]"
  }

  lemma QuotedThen(s: string, more: string, elems: seq<Value>)
    requires Plain(s) && Starts(more) && NoNul(more) && ReadElems(more) == Ok(elems, "")
    ensures ReadElems(Quoted(s) + more) == Ok([Str(s)] + elems, "")
    ensures Starts(Quoted(s) + more) && NoNul(Quoted(s) + more) && CStr(s) == s
  {
    PlainHasNoNul(s);
    ReadQuotedElemThen(s, more, elems, "");
    NoNulAppend(Quoted(s), more);
  }

  lemma LastReads(payload: Value)
    requires Writable(payload)
    ensures ReadElems(Last(payload)) == Ok([payload], "") && Starts(Last(payload)) && NoNul(Last(payload))
  {
    ReadLastPayload(payload);
    PrintHasNoNul(payload);
  }

  lemma FrameReads(digit: char, more: string, elems: seq<Value>)
    requires (digit == '2' || digit == '3' || digit == '4') && Starts(more) && NoNul(more)
             && ReadElems(more) == Ok(elems, "")
    ensures var text := "[" + [digit] + ", " + more;
            && NoNul(text) && Parse(text) == Option.Some(Arr([Num([digit])] + elems))
            && Uint(Num([digit])) == Option.Some(digit as int - '0' as int)
  {
    ParseFrame(digit, more, elems);
    TypeDigit(digit);
    NoNulAppend("[" + [digit] + ", ", more);
  }

  lemma CallRoundTrip(id: string, action: string, payload: Value)
    requires Plain(id) && Plain(action) && payload.Obj? && Writable(payload)
    ensures Meaning(CallText(id, action, payload)) == Call(id, action, payload)
  {
    var more := Quoted(id) + (Quoted(action) + Last(payload));
    assert CallText(id, action, payload) == "[" + ['2'] + ", " + more;
    hide Quoted, Last, ReadElems, Starts, NoNul, Plain, Writable, CallText, Uint, Parse, Meaning;
    LastReads(payload);
    QuotedThen(action, Last(payload), [payload]);
    QuotedThen(id, Quoted(action) + Last(payload), [Str(action)] + [payload]);
    var elems := [Str(id)] + ([Str(action)] + [payload]);
    FrameReads('2', more, elems);
    MeaningIs("[" + ['2'] + ", " + more, Arr([Num("2")] + elems));
  }

  lemma ResultRoundTrip(id: string, payload: Value)
    requires Plain(id) && payload.Obj? && Writable(payload)
    ensures Meaning(ResultText(id, payload)) == CallResult(id, payload)
  {
    var more := Quoted(id) + Last(payload);
    assert ResultText(id, payload) == "[" + ['3'] + ", " + more;
    hide Quoted, Last, ReadElems, Starts, NoNul, Plain, Writable, ResultText, Uint, Parse, Meaning;
    LastReads(payload);
    QuotedThen(id, Last(payload), [payload]);
    var elems := [Str(id)] + [payload];
    FrameReads('3', more, elems);
    MeaningIs("[" + ['3'] + ", " + more, Arr([Num("3")] + elems));
  }

  lemma ErrorTextIs(id: string, code: string, message: string)
    ensures ErrorText(id, code, message) ==
            "[" + ['4'] + ", " + (Quoted(id) + (Quoted(code) + (Quoted(message) + Last(Obj([])))))
  {
    assert Last(Obj([])) == "{}]";
  }

  lemma ErrorRoundTrip(id: string, code: string, message: string)
    requires Plain(id) && Plain(code) && Plain(message)
    ensures Meaning(ErrorText(id, code, message)) == CallError(id, code, message, Obj([]))
  {
    var none := Obj([]);
    var more := Quoted(id) + (Quoted(code) + (Quoted(message) + Last(none)));
    ErrorTextIs(id, code, message);
    assert Writable(none);
    hide Quoted, Last, ReadElems, Starts, NoNul, Plain, ErrorText, Uint, Parse, Meaning, Writable;
    LastReads(none);
    QuotedThen(message, Last(none), [none]);
    QuotedThen(code, Quoted(message) + Last(none), [Str(message)] + [none]);
    QuotedThen(id, Quoted(code) + (Quoted(message) + Last(none)), [Str(code)] + ([Str(message)] + [none]));
    var elems := [Str(id)] + ([Str(code)] + ([Str(message)] + [none]));
    FrameReads('4', more, elems);
    MeaningIs("[" + ['4'] + ", " + more, Arr([Num("4")] + elems));
  }

  // ---------------------------------------------------------------------------------------
  // Whatever is spliced into it, a reply never reads as a request
  // ---------------------------------------------------------------------------------------

  lemma ReadDigit(digit: char, rest: string)
    requires digit == '2' || digit == '3' || digit == '4'
    requires EndsNumber(rest)
    ensures ReadValue([digit] + rest) == Ok(Num([digit]), rest)
  {
    var n := [digit];
    assert n[1..] == "" && DropDigits(n) == "" && NumberLength(n) == 1;
    ReadPrintedNumber(n, rest);
  }

  /** The text of a frame, taken apart. */
  lemma FrameParts(digit: char, more: string)
    ensures var text := "[" + [digit] + ", " + more; var t := [digit] + (", " + more);
            text[0] == '[' && text[1..] == t && (", " + more)[1..] == " " + more && (" " + more)[1..] == more
  {
  }

  lemma NoSpace(s: string)
    requires s == "" || (s[0] != ' ' && s[0] != '\n' && s[0] != '\r' && s[0] != '\t')
    ensures SkipSpace(s) == s
  {
  }

  lemma OneSpace(s: string)
    ensures SkipSpace(" " + s) == SkipSpace(s)
  {
    assert (" " + s)[1..] == s;
  }

  /** Reading the elements from the type digit on. */
  lemma ReadFromDigit(digit: char, more: string)
    requires digit == '2' || digit == '3' || digit == '4'
    ensures var r := ReadElems(SkipSpace(more));
            ReadElems([digit] + (", " + more)) == if r.Ok? then Ok([Num([digit])] + r.value, r.rest) else Fail
  {
    FrameParts(digit, more);
    ReadDigit(digit, ", " + more);
    NoSpace(", " + more);
    OneSpace(more);
    hide SkipSpace, ReadValue;
  }

  /** What the reader makes of a frame: its type, then whatever the rest reads as. */
  lemma ParseSpliced(digit: char, more: string)
    requires digit == '2' || digit == '3' || digit == '4'
    ensures var r := ReadElems(SkipSpace(more));
            Parse("[" + [digit] + ", " + more) ==
            if r.Ok? && SkipSpace(r.rest) == "" then Some(Arr([Num([digit])] + r.value)) else None
  {
    var text := "[" + [digit] + ", " + more;
    FrameParts(digit, more);
    ReadFromDigit(digit, more);
    NoSpace(text);
    NoSpace([digit] + (", " + more));
    hide SkipSpace, ReadElems, ReadChars, ReadMembers, ReadNumber;
  }

  lemma FrameTypeDecides(digit: char, more: string)
    requires digit == '3' || digit == '4'
    ensures var v := Parse("[" + [digit] + ", " + more);
            v.Some? ==> v.value.Arr? && v.value.elems != [] && v.value.elems[0] == Num([digit])
  {
    ParseSpliced(digit, more);
  }

  lemma {:induction false} CStrAfter(a: string, s: string)
    requires NoNul(a)
    ensures CStr(a + s) == a + CStr(s)
  {
    if a == "" {
      assert a + s == s;
    } else {
      assert (a + s)[1..] == a[1..] + s;
      CStrAfter(a[1..], s);
    }
  }

  lemma ReplyIsNoCall(digit: char, more: string)
    requires digit == '3' || digit == '4'
    ensures !Meaning("[" + [digit] + ", " + more).Call?
  {
    var start := "[" + [digit] + ", ";
    CStrAfter(start, more);
    TypeDigit(digit);
    hide CStr, Parse, Uint;
    FrameTypeDecides(digit, CStr(more));
  }

  lemma ResultIsNoCall(id: string, payload: Value)
    ensures !Meaning(ResultText(id, payload)).Call?
  {
    var more := "\"" + id + "\", " + Print(payload) + "]";
    assert ResultText(id, payload) == "[" + "3" + ", " + more;
    ReplyIsNoCall('3', more);
  }

  lemma ErrorIsNoCall(id: string, code: string, message: string)
    ensures !Meaning(ErrorText(id, code, message)).Call?
  {
    var more := "\"" + id + "\", \"" + code + "\", \"" + message + "\", {}]";
    assert ErrorText(id, code, message) == "[" + "4" + ", " + more;
    ReplyIsNoCall('4', more);
  }

  // ---------------------------------------------------------------------------------------
  // Exactly the strings that need no escape survive
  // ---------------------------------------------------------------------------------------

  /** Once the reader has used up more text than it has produced characters, it cannot produce
      the expected characters any more: it meets the first quotation mark too early. */
  lemma {:induction false} LaggingReaderFails(text: string, n: nat, expected: string)
    requires n < |text| && text[n] == '"' && '"' !in text[..n]
    requires n < |expected| && '"' !in expected[..n + 1]
    ensures var r := ReadChars(text); r.Ok? ==> !(expected <= r.value)
    decreases |text|
  {
    var r := ReadChars(text);
    hide Unescape;
    if n > 0 && r.Ok? && expected <= r.value {
      assert text[0] == text[..n][0] && expected[0] == expected[..n + 1][0];
      if text[0] == '\\' {
        var u := Unescape(text[1..]);
        ReadEscape(text);
        hide ReadChars;
        assert u.value == expected[0] && expected[1..] <= r.value[1..];
        EscapeTakesNoQuote(text[1..], n - 1);
        var d := |text| - |u.rest|;
        assert u.rest == text[d..];
        LaggingReaderFails(u.rest, n - d, expected[1..]);
      } else {
        assert expected[1..] <= r.value[1..];
        LaggingReaderFails(text[1..], n - 1, expected[1..]);
      }
    }
  }

  /** An escape that does not stand for a quotation mark stops before the first one. */
  lemma EscapeTakesNoQuote(text: string, n: nat)
    requires n < |text| && text[n] == '"' && '"' !in text[..n]
    requires Unescape(text).Ok? && Unescape(text).value != '"'
    ensures var d := |text| - |Unescape(text).rest|;
            d <= n && Unescape(text).rest == text[d..]
            && text[d..][n - d] == '"' && '"' !in text[d..][..n - d]
  {
    var d := |text| - |Unescape(text).rest|;
    assert n != 0;
    if text[0] == 'u' {
      NotHexQuote(text[1..]);
      assert forall i :: 1 <= i < 5 ==> text[i] != '"';
      if d == 11 {
        NotHexQuote(text[7..]);
        assert forall i :: 0 <= i < 4 ==> text[7..][i] == text[7 + i];
      }
    }
    assert text[d..][..n - d] == text[..n][d..];
  }

  lemma NotHexQuote(s: string)
    requires Hex4(s).Some?
    ensures forall i :: 0 <= i < 4 ==> s[i] != '"'
  {
  }

  /** Where the first quotation mark is. */
  function FirstQuote(s: string): (n: nat)
    requires '"' in s
    ensures n < |s| && s[n] == '"' && '"' !in s[..n]
    ensures forall i :: 0 <= i < n ==> s[i] != '"'
  {
    if s[0] == '"' then 0 else 1 + FirstQuote(s[1..])
  }

  lemma ReadEscape(text: string)
    requires text != "" && text[0] == '\\' && ReadChars(text).Ok?
    ensures var u := Unescape(text[1..]);
            u.Ok? && ReadChars(u.rest).Ok? && ReadChars(text).value == [u.value] + ReadChars(u.rest).value
  {
  }

  /** The first quotation mark of a string that is followed by one. */
  lemma QuoteAhead(s: string, more: string) returns (n: nat)
    ensures var text := s + "\"" + more;
            n <= |s| && text[n] == '"' && '"' !in text[..n] && text[..n] == s[..n]
  {
    var text := s + "\"" + more;
    assert text[|s|] == '"';
    n := FirstQuote(text);
  }

  /** After an escape that stands for no quotation mark, the reader lags behind. */
  lemma LagsAfterEscape(s: string, more: string)
    requires var u := Unescape(s + "\"" + more); u.Ok? && u.value != '"'
    ensures var r := ReadChars(Unescape(s + "\"" + more).rest); r.Ok? ==> !(s <= r.value)
  {
    hide ReadChars, Unescape;
    var text := s + "\"" + more;
    var n := QuoteAhead(s, more);
    EscapeTakesNoQuote(text, n);
    var rest := Unescape(text).rest;
    var d := |text| - |rest|;
    assert s[..n - d + 1] == s[..n][..n - d + 1] == text[..n][..n - d + 1];
    assert forall i :: 0 <= i < n ==> text[..n][i] == text[i];
    LaggingReaderFails(rest, n - d, s);
  }

  /** A spliced string that starts with a reverse solidus does not read back. */
  lemma BackslashIsLost(s: string, more: string)
    requires s != "" && s[0] == '\\'
    ensures var r := ReadChars(s + "\"" + more); r.Ok? ==> !(s <= r.value)
  {
    var text := s + "\"" + more;
    var r := ReadChars(text);
    hide ReadChars, Unescape;
    if r.Ok? && s <= r.value {
      assert text[1..] == s[1..] + "\"" + more;
      ReadEscape(text);
      assert r.value[0] == '\\' && r.value[1..] == ReadChars(Unescape(text[1..]).rest).value;
      assert s[1..] <= r.value[1..];
      LagsAfterEscape(s[1..], more);
    }
  }

  lemma {:induction false} OnlyPlainReadsBack(s: string, more: string)
    requires var r := ReadChars(s + "\"" + more); r.Ok? && s <= r.value
    ensures Plain(s)
  {
    if s != "" {
      var text := s + "\"" + more;
      var r := ReadChars(text);
      assert text[0] == s[0] && text[1..] == s[1..] + "\"" + more;
      if s[0] == '\\' {
        BackslashIsLost(s, more);
      } else {
        assert r.value[1..] == ReadChars(text[1..]).value && s[1..] <= r.value[1..];
        OnlyPlainReadsBack(s[1..], more);
      }
    }
  }

  lemma {:induction false} CStrIsPrefix(s: string)
    ensures CStr(s) <= s && NoNul(CStr(s))
  {
    if s != "" && s[0] != '\0' {
      CStrIsPrefix(s[1..]);
    }
  }

  lemma ReadsBackIffPlain(s: string, more: string)
    ensures (var r := ReadChars(s + "\"" + more); r.Ok? && CStr(r.value) == s) <==> Plain(s)
    ensures Plain(s) ==> ReadChars(s + "\"" + more) == Ok(s, more)
  {
    var r := ReadChars(s + "\"" + more);
    if Plain(s) {
      EscapePlain(s);
      ReadEscaped(s, more);
      PlainHasNoNul(s);
    }
    if r.Ok? && CStr(r.value) == s {
      CStrIsPrefix(r.value);
      OnlyPlainReadsBack(s, more);
    }
  }

  /** A spliced string at the head of a list of elements: it is a string element, it comes back
      exactly if it is plain, and then the others are what follows it. */
  lemma QuotedReadsBack(s: string, more: string, elems: seq<Value>, rest: string)
    requires ReadElems(Quoted(s) + more) == Ok(elems, rest)
    ensures elems[0].Str? && (CStr(elems[0].s) == s <==> Plain(s)) && (Plain(s) ==> elems[0].s == s)
    ensures Plain(s) && |elems| > 1 && Starts(more) ==> ReadElems(more) == Ok(elems[1..], rest)
  {
    var text := Quoted(s) + more;
    assert text[0] == '"' && text[1..] == s + "\"" + (", " + more);
    ReadsBackIffPlain(s, ", " + more);
    var r := ReadChars(text[1..]);
    hide ReadChars, Plain, CStr, ReadNumber, ReadMembers;
    QuoteReads(text);
    if Plain(s) && |elems| > 1 && Starts(more) {
      NoSpace(", " + more);
      AfterComma(more);
      assert (", " + more)[1..] == " " + more;
      hide ReadValue, SkipSpace;
    }
  }

  lemma QuoteReads(text: string)
    requires text != "" && text[0] == '"'
    ensures var r := ReadChars(text[1..]); ReadValue(text) == if r.Ok? then Ok(Str(r.value), r.rest) else Fail
  {
    hide ReadChars, ReadNumber, ReadMembers, ReadElems;
  }

  /** A frame that keeps its first spliced string. */
  lemma SplicedFrame(digit: char, id: string, tail: string) returns (elems: seq<Value>)
    requires digit == '2' || digit == '3' || digit == '4'
    requires NoNul(tail) && var m := Meaning("[" + [digit] + ", " + (Quoted(id) + tail)); !m.Malformed? && m.id == id
    ensures Plain(id) && elems != [] && elems[0] == Str(id)
    ensures Parse(CStr("[" + [digit] + ", " + (Quoted(id) + tail))) == Option.Some(Arr([Num([digit])] + elems))
    ensures |elems| > 1 && Starts(tail) ==> ReadElems(tail).Ok? && ReadElems(tail).value == elems[1..]
  {
    var more := Quoted(id) + tail;
    var text := "[" + [digit] + ", " + more;
    CStrIsPrefix(Parse(CStr(text)).value.elems[1].s);
    hide ReadElems, Plain;
    NoNulAppend(Quoted(id), tail);
    NoNulAppend("[" + [digit] + ", ", more);
    CStrOfNoNul(text);
    ParseSpliced(digit, more);
    QuoteStarts(Quoted(id), tail);
    var r := ReadElems(more);
    elems := r.value;
    QuotedReadsBack(id, tail, elems, r.rest);
  }

  /** A CALLRESULT frame says what was meant if and only if its identifier needs no escape. */
  lemma ResultRoundTripIff(id: string, payload: Value)
    requires payload.Obj? && Writable(payload)
    ensures Meaning(ResultText(id, payload)) == CallResult(id, payload) <==> Plain(id)
  {
    if Plain(id) {
      ResultRoundTrip(id, payload);
    }
    if Meaning(ResultText(id, payload)) == CallResult(id, payload) {
      LastReads(payload);
      assert ResultText(id, payload) == "[" + ['3'] + ", " + (Quoted(id) + Last(payload));
      var _ := SplicedFrame('3', id, Last(payload));
    }
  }

  lemma OnlyPlainCallsRoundTrip(id: string, action: string, payload: Value)
    requires payload.Obj? && Writable(payload) && NoNul(action)
    requires Meaning(CallText(id, action, payload)) == Call(id, action, payload)
    ensures Plain(id) && Plain(action)
  {
    var last := Last(payload);
    var tail := Quoted(action) + last;
    assert CallText(id, action, payload) == "[" + ['2'] + ", " + (Quoted(id) + tail);
    LastReads(payload);
    NoNulAppend(Quoted(action), last);
    QuoteStarts(Quoted(action), last);
    hide Quoted, Last, CallText, Starts, Plain, Writable, ReadElems, Parse, NoNul;
    var elems := SplicedFrame('2', id, tail);
    QuotedReadsBack(action, last, elems[1..], ReadElems(tail).rest);
  }

  lemma CallHasNoNul(text: string)
    requires Meaning(text).Call?
    ensures NoNul(Meaning(text).action)
  {
    CStrIsPrefix(Parse(CStr(text)).value.elems[2].s);
  }

  /** A CALL frame says what was meant if and only if its identifier and action need no escape. */
  lemma CallRoundTripIff(id: string, action: string, payload: Value)
    requires payload.Obj? && Writable(payload)
    ensures Meaning(CallText(id, action, payload)) == Call(id, action, payload) <==> Plain(id) && Plain(action)
  {
    hide Plain, Writable, Meaning, CallText;
    if Plain(id) && Plain(action) {
      CallRoundTrip(id, action, payload);
    }
    if Meaning(CallText(id, action, payload)) == Call(id, action, payload) {
      CallHasNoNul(CallText(id, action, payload));
      OnlyPlainCallsRoundTrip(id, action, payload);
    }
  }

  lemma ErrorHasNoNul(text: string)
    requires Meaning(text).CallError?
    ensures NoNul(Meaning(text).code) && NoNul(Meaning(text).message)
  {
    CStrIsPrefix(Parse(CStr(text)).value.elems[2].s);
    CStrIsPrefix(Parse(CStr(text)).value.elems[3].s);
  }

  lemma OnlyPlainErrorsRoundTrip(id: string, code: string, message: string)
    requires NoNul(code) && NoNul(message)
    requires Meaning(ErrorText(id, code, message)) == CallError(id, code, message, Obj([]))
    ensures Plain(id) && Plain(code) && Plain(message)
  {
    var last := Last(Obj([]));
    var second := Quoted(message) + last;
    var tail := Quoted(code) + second;
    ErrorTextIs(id, code, message);
    LastReads(Obj([]));
    NoNulAppend(Quoted(message), last);
    NoNulAppend(Quoted(code), second);
    QuoteStarts(Quoted(message), last);
    QuoteStarts(Quoted(code), second);
    hide Quoted, Last, ErrorText, Starts, Plain, Writable, ReadElems, Parse, NoNul;
    var elems := SplicedFrame('4', id, tail);
    QuotedReadsBack(code, second, elems[1..], ReadElems(tail).rest);
    QuotedReadsBack(message, last, elems[2..], ReadElems(tail).rest);
  }

  /** And a CALLERROR frame if and only if none of its three strings does. */
  lemma ErrorRoundTripIff(id: string, code: string, message: string)
    ensures Meaning(ErrorText(id, code, message)) == CallError(id, code, message, Obj([]))
            <==> Plain(id) && Plain(code) && Plain(message)
  {
    hide Plain, Meaning, ErrorText;
    if Plain(id) && Plain(code) && Plain(message) {
      ErrorRoundTrip(id, code, message);
    }
    if Meaning(ErrorText(id, code, message)) == CallError(id, code, message, Obj([])) {
      ErrorHasNoNul(ErrorText(id, code, message));
      OnlyPlainErrorsRoundTrip(id, code, message);
    }
  }
}
