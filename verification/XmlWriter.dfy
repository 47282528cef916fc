/** The XML writer of the test framework's reporter, against a scanner for well-nested documents.
    Text is a sequence of Unicode characters. */
module XmlWriter {
  import opened Basics

  // ---------------------------------------------------------------------------------------
  // A scanner: which elements are open after a text, or that it is no beginning of a document
  // ---------------------------------------------------------------------------------------

  datatype Scanner =
    | Text(open: seq<string>, brackets: nat)            // how many `]` just before, up to two
    | Less(open: seq<string>)                           // after `<`
    | Instruction(open: seq<string>)                    // inside `<?...>`
    | EndName(open: seq<string>, name: string)          // inside `</name`
    | Name(open: seq<string>, name: string)             // inside `<name`
    | Space(open: seq<string>, name: string)            // before an attribute
    | Attribute(open: seq<string>, name: string)        // inside the name of an attribute
    | Equals(open: seq<string>, name: string)           // after its `=`
    | Quote(open: seq<string>, name: string)            // inside its value
    | Quoted(open: seq<string>, name: string)           // after its value
    | Slash(open: seq<string>)                          // after the `/` of an empty element
    | Reference(back: Scanner, entity: string)          // after an `&`
    | Bad

  /** XML 1.0, section 2.2. */
  predicate XmlChar(c: char) {
    var n := c as int;
    n == 0x9 || n == 0xA || n == 0xD || 0x20 <= n <= 0xD7FF || 0xE000 <= n <= 0xFFFD || 0x1_0000 <= n <= 0x10_FFFF
  }

  predicate NameChar(c: char) {
    && XmlChar(c) && c > ' '
    && c != '<' && c != '>' && c != '/' && c != '=' && c != '"' && c != '\'' && c != '&' && c != '?' && c != '!'
  }

  predicate IsName(s: string) {
    s != "" && forall i :: 0 <= i < |s| ==> NameChar(s[i])
  }

  /** The references the writer uses, of those that XML predefines. */
  predicate KnownEntity(entity: string) {
    entity == "lt" || entity == "gt" || entity == "amp" || entity == "quot"
  }

  /** A character that XML does not know spoils the document wherever it stands. */
  function Step(k: Scanner, c: char): Scanner {
    if XmlChar(c) then Next(k, c) else Bad
  }

  function Next(k: Scanner, c: char): Scanner {
    match k
    case Text(open, brackets) =>
      if c == '<' then Less(open)
      else if c == '&' then Reference(Text(open, 0), "")
      else if c == '>' && brackets == 2 then Bad
      else if c == ']' then Text(open, if brackets == 2 then 2 else brackets + 1)
      else Text(open, 0)
    case Less(open) =>
      if c == '/' then EndName(open, "") else if c == '?' then Instruction(open)
      else if NameChar(c) then Name(open, [c]) else Bad
    case Instruction(open) => if c == '>' then Text(open, 0) else k
    case EndName(open, name) =>
      if NameChar(c) then EndName(open, name + [c])
      else if c == '>' && open != [] && open[|open| - 1] == name then Text(open[..|open| - 1], 0)
      else Bad
    case Name(open, name) =>
      if NameChar(c) then Name(open, name + [c])
      else if c == '>' then Text(open + [name], 0)
      else if c == '/' then Slash(open)
      else if c == ' ' then Space(open, name) else Bad
    case Space(open, name) => if NameChar(c) then Attribute(open, name) else Bad
    case Attribute(open, name) => if NameChar(c) then k else if c == '=' then Equals(open, name) else Bad
    case Equals(open, name) => if c == '"' then Quote(open, name) else Bad
    case Quote(open, name) =>
      if c == '"' then Quoted(open, name) else if c == '<' then Bad else if c == '&' then Reference(k, "") else k
    case Quoted(open, name) =>
      if c == '>' then Text(open + [name], 0)
      else if c == '/' then Slash(open)
      else if c == ' ' then Space(open, name)
      else Bad
    case Slash(open) => if c == '>' then Text(open, 0) else Bad
    case Reference(back, entity) =>
      if c != ';' then Reference(back, entity + [c])
      else if KnownEntity(entity) then back else Bad
    case Bad => Bad
  }

  function Scan(k: Scanner, s: string): Scanner
    decreases |s|
  {
    if s == "" then k else Scan(Step(k, s[0]), s[1..])
  }

  const START := Text([], 0)

  lemma {:induction false} ScanAppend(k: Scanner, a: string, b: string)
    ensures Scan(k, a + b) == Scan(Scan(k, a), b)
    decreases |a|
  {
    if a == "" {
      assert a + b == b;
    } else {
      assert (a + b)[1..] == a[1..] + b;
      ScanAppend(Step(k, a[0]), a[1..], b);
    }
  }

  lemma ScanOne(k: Scanner, c: char)
    ensures Scan(k, [c]) == Step(k, c)
  {
    assert [c][1..] == "";
  }

  lemma ScanTwo(k: Scanner, c: char, d: char)
    ensures Scan(k, [c, d]) == Step(Step(k, c), d)
  {
    assert [c, d][1..] == [d];
    ScanOne(Step(k, c), d);
  }

  lemma {:induction false} BadStaysBad(s: string)
    ensures Scan(Bad, s) == Bad
  {
    if s != "" {
      BadStaysBad(s[1..]);
    }
  }

  // ---------------------------------------------------------------------------------------
  // Encoding
  // ---------------------------------------------------------------------------------------

  predicate Control(c: char) {
    c as int < 0x09 || 0x0D < c as int < 0x20 || c as int == 0x7F
  }

  function EncodeChar(s: string, i: nat, attribute: bool): string
    requires i < |s|
  {
    var c := s[i];
    if c == '<' then "&lt;"
    else if c == '&' then "&amp;"
    else if c == '>' then if i > 2 && s[i - 1] == ']' && s[i - 2] == ']' then "&gt;" else ">"
    else if c == '"' then if attribute then "&quot;" else "\""
    else if Control(c) then "\\x" + [HexDigit(c as int / 16), HexDigit(c as int % 16)]
    else [c]
  }

  /** The encoding of a text from a position on. */
  function Encoded(s: string, i: nat, attribute: bool): string
    requires i <= |s|
    decreases |s| - i
  {
    if i == |s| then "" else EncodeChar(s, i, attribute) + Encoded(s, i + 1, attribute)
  }

  method EncodeTo(s: string, attribute: bool) returns (os: string)
    ensures os == Encoded(s, 0, attribute)
  {
    hide EncodeChar;
    os := "";
    var i := 0;
    while i < |s|
      invariant 0 <= i <= |s| && os + Encoded(s, i, attribute) == Encoded(s, 0, attribute)
    {
      var piece := EncodeOne(s, i, attribute);
      Reassociate(os, piece, Encoded(s, i + 1, attribute));
      os := os + piece;
      i := i + 1;
    }
  }

  /** One round of the loop. */
  method EncodeOne(s: string, i: nat, attribute: bool) returns (piece: string)
    requires i < |s|
    ensures piece == EncodeChar(s, i, attribute)
  {
    var c := s[i];
    piece := [c];
    if c == '<' {
      piece := "&lt;";
    } else if c == '&' {
      piece := "&amp;";
    } else if c == '>' {
      if i > 2 && s[i - 1] == ']' && s[i - 2] == ']' {
        piece := "&gt;";
      }
    } else if c == '"' {
      if attribute {
        piece := "&quot;";
      }
    } else if Control(c) {
      piece := "\\x" + [HexDigit(c as int / 16), HexDigit(c as int % 16)];
    }
  }

  lemma Reassociate(a: string, b: string, c: string)
    ensures a + b + c == a + (b + c)
  {
  }

  /** How many `]` come just before position `i`, up to two, if there were `b` before the text. */
  function Brackets(b: nat, s: string, i: nat): nat
    requires i <= |s|
  {
    if i == 0 then b
    else if s[i - 1] == ']' then (if Brackets(b, s, i - 1) >= 1 then 2 else 1)
    else 0
  }

  /** One of the first three characters ends a `]]>`: the encoder looks for this sequence only
      after them, and only within the text it is given. */
  predicate Unprotected(b: nat, s: string, i: nat) {
    exists j :: i <= j <= 2 && j < |s| && s[j] == '>' && Brackets(b, s, j) == 2
  }

  /** A character that the encoder lets through though XML does not know it: U+000B, U+000C,
      U+FFFE and U+FFFF. */
  predicate LetThrough(c: char) {
    !XmlChar(c) && !Control(c)
  }

  predicate Foreign(s: string, i: nat) {
    exists j :: i <= j < |s| && LetThrough(s[j])
  }

  lemma LetThroughIs(c: char)
    ensures LetThrough(c) <==> c as int == 0xB || c as int == 0xC || c as int == 0xFFFE || c as int == 0xFFFF
  {
  }

  lemma ScanEntity(k: Scanner, s: string, entity: string)
    requires k.Text? || k.Quote?
    requires KnownEntity(entity) && ';' !in entity && (forall i :: 0 <= i < |entity| ==> XmlChar(entity[i]))
             && s == "&" + (entity + ";")
    ensures Scan(k, s) == if k.Text? then Text(k.open, 0) else k
  {
    var back := if k.Text? then Text(k.open, 0) else k;
    ScanAppend(k, "&", entity + ";");
    ScanOne(k, '&');
    ScanAppend(Reference(back, ""), entity, ";");
    ScanReference(back, "", entity);
    assert "" + entity == entity;
    ScanOne(Reference(back, entity), ';');
    hide Scan;
  }

  lemma {:induction false} ScanReference(back: Scanner, before: string, entity: string)
    requires ';' !in entity && forall i :: 0 <= i < |entity| ==> XmlChar(entity[i])
    ensures Scan(Reference(back, before), entity) == Reference(back, before + entity)
    decreases |entity|
  {
    if entity == "" {
      assert before + entity == before;
    } else {
      ScanReference(back, before + [entity[0]], entity[1..]);
      assert before + [entity[0]] + entity[1..] == before + entity;
    }
  }

  lemma {:induction false} ScanHarmless(k: Scanner, s: string)
    requires k.Text? || k.Quote?
    requires forall i :: 0 <= i < |s| ==>
               XmlChar(s[i]) && s[i] != '<' && s[i] != '&' && s[i] != '>' && s[i] != ']' && s[i] != '"'
    ensures Scan(k, s) == if k.Text? && s != "" then Text(k.open, 0) else k
    decreases |s|
  {
    if s != "" {
      ScanHarmless(Step(k, s[0]), s[1..]);
    }
  }

  lemma EncodedCharInText(open: seq<string>, b: nat, s: string, i: nat)
    requires i < |s| && b <= 2
    ensures var k := Scan(Text(open, Brackets(b, s, i)), EncodeChar(s, i, false));
            k == if LetThrough(s[i]) || (s[i] == '>' && i <= 2 && Brackets(b, s, i) == 2) then Bad
                 else Text(open, Brackets(b, s, i + 1))
  {
    var k := Text(open, Brackets(b, s, i));
    var e := EncodeChar(s, i, false);
    if s[i] == '<' {
      ScanEntity(k, e, "lt");
    } else if s[i] == '&' {
      ScanEntity(k, e, "amp");
    } else if s[i] == '>' && e == "&gt;" {
      ScanEntity(k, e, "gt");
    } else if Control(s[i]) {
      ScanHarmless(k, e);
    } else {
      assert e == [s[i]];
      ScanOne(k, s[i]);
    }
  }

  /** An encoded text leaves the scanner in the text of the same element, unless it has a `]]>`
      that is not protected or a character that is let through. */
  lemma UnprotectedUnfolds(b: nat, s: string, i: nat)
    requires i < |s|
    ensures Unprotected(b, s, i) <==> (s[i] == '>' && i <= 2 && Brackets(b, s, i) == 2) || Unprotected(b, s, i + 1)
  {
  }

  lemma ForeignUnfolds(s: string, i: nat)
    requires i < |s|
    ensures Foreign(s, i) <==> LetThrough(s[i]) || Foreign(s, i + 1)
  {
  }

  lemma EncodedUnfolds(s: string, i: nat, attribute: bool)
    requires i < |s|
    ensures Encoded(s, i, attribute) == EncodeChar(s, i, attribute) + Encoded(s, i + 1, attribute)
  {
  }

  lemma NothingEncoded(k: Scanner, b: nat, s: string, attribute: bool)
    ensures Scan(k, Encoded(s, |s|, attribute)) == k && !Unprotected(b, s, |s|) && !Foreign(s, |s|)
  {
  }

  lemma {:induction false} EncodedText(open: seq<string>, b: nat, s: string, i: nat)
    requires i <= |s| && b <= 2
    ensures Scan(Text(open, Brackets(b, s, i)), Encoded(s, i, false)) ==
            if Unprotected(b, s, i) || Foreign(s, i) then Bad else Text(open, Brackets(b, s, |s|))
    decreases |s| - i
  {
    hide Scan, Encoded, EncodeChar, Unprotected, Foreign, LetThrough, Brackets;
    if i == |s| {
      NothingEncoded(Text(open, Brackets(b, s, i)), b, s, false);
    } else {
      var rest := Encoded(s, i + 1, false);
      EncodedUnfolds(s, i, false);
      ScanAppend(Text(open, Brackets(b, s, i)), EncodeChar(s, i, false), rest);
      EncodedCharInText(open, b, s, i);
      UnprotectedUnfolds(b, s, i);
      ForeignUnfolds(s, i);
      if LetThrough(s[i]) || (s[i] == '>' && i <= 2 && Brackets(b, s, i) == 2) {
        BadStaysBad(rest);
      } else {
        EncodedText(open, b, s, i + 1);
      }
    }
  }

  lemma EncodedCharInValue(open: seq<string>, name: string, s: string, i: nat)
    requires i < |s|
    ensures Scan(Quote(open, name), EncodeChar(s, i, true)) == if LetThrough(s[i]) then Bad else Quote(open, name)
  {
    var k := Quote(open, name);
    var e := EncodeChar(s, i, true);
    if s[i] == '<' {
      ScanEntity(k, e, "lt");
    } else if s[i] == '&' {
      ScanEntity(k, e, "amp");
    } else if s[i] == '>' && e == "&gt;" {
      ScanEntity(k, e, "gt");
    } else if s[i] == '"' {
      ScanEntity(k, e, "quot");
    } else if Control(s[i]) {
      ScanHarmless(k, e);
    } else {
      assert e == [s[i]];
      ScanOne(k, s[i]);
    }
  }

  lemma {:induction false} EncodedValue(open: seq<string>, name: string, s: string, i: nat)
    requires i <= |s|
    ensures Scan(Quote(open, name), Encoded(s, i, true)) == if Foreign(s, i) then Bad else Quote(open, name)
    decreases |s| - i
  {
    hide Scan, Encoded, EncodeChar, Foreign, LetThrough;
    if i == |s| {
      NothingEncoded(Quote(open, name), 0, s, true);
    } else {
      EncodedUnfolds(s, i, true);
      ScanAppend(Quote(open, name), EncodeChar(s, i, true), Encoded(s, i + 1, true));
      EncodedCharInValue(open, name, s, i);
      ForeignUnfolds(s, i);
      if LetThrough(s[i]) {
        BadStaysBad(Encoded(s, i + 1, true));
      } else {
        EncodedValue(open, name, s, i + 1);
      }
    }
  }

  /** A text with a vertical tab breaks the document too. */
  lemma VerticalTabIsLetThrough(open: seq<string>)
    ensures Scan(Text(open, 0), Encoded([0xB as char], 0, false)) == Bad
  {
    LetThroughIs(0xB as char);
    EncodedText(open, 0, [0xB as char], 0);
    assert LetThrough([0xB as char][0]);
  }

  /** Such a text: the encoder leaves the sequence as it is. */
  lemma BracketsAtTheStart(open: seq<string>)
    ensures Scan(Text(open, 0), Encoded("]]>", 0, false)) == Bad
  {
    var s := "]]>";
    assert Brackets(0, s, 0) == 0 && Brackets(0, s, 1) == 1 && Brackets(0, s, 2) == 2 && s[2] == '>';
    EncodedText(open, 0, s, 0);
  }

  // ---------------------------------------------------------------------------------------
  // The pieces the writer puts together
  // ---------------------------------------------------------------------------------------

  function Spaces(n: nat): (s: string)
    ensures |s| == n && forall i :: 0 <= i < n ==> s[i] == ' '
  {
    seq(n, i => ' ')
  }

  lemma {:induction false} ScanName(open: seq<string>, before: string, name: string)
    requires before != "" && forall i :: 0 <= i < |name| ==> NameChar(name[i])
    ensures Scan(Name(open, before), name) == Name(open, before + name)
    decreases |name|
  {
    if name == "" {
      assert before + name == before;
    } else {
      ScanName(open, before + [name[0]], name[1..]);
      assert before + [name[0]] + name[1..] == before + name;
    }
  }

  lemma {:induction false} ScanEndName(open: seq<string>, before: string, name: string)
    requires forall i :: 0 <= i < |name| ==> NameChar(name[i])
    ensures Scan(EndName(open, before), name) == EndName(open, before + name)
    decreases |name|
  {
    if name == "" {
      assert before + name == before;
    } else {
      ScanEndName(open, before + [name[0]], name[1..]);
      assert before + [name[0]] + name[1..] == before + name;
    }
  }

  lemma {:induction false} ScanAttributeName(open: seq<string>, name: string, attribute: string)
    requires forall i :: 0 <= i < |attribute| ==> NameChar(attribute[i])
    ensures Scan(Attribute(open, name), attribute) == Attribute(open, name)
    decreases |attribute|
  {
    if attribute != "" {
      ScanAttributeName(open, name, attribute[1..]);
    }
  }

  /** White space in a text. */
  lemma ScanBlank(open: seq<string>, b: nat, s: string)
    requires forall i :: 0 <= i < |s| ==> s[i] == ' ' || s[i] == '\n'
    ensures Scan(Text(open, b), s) == Text(open, if s == "" then b else 0)
  {
    ScanHarmless(Text(open, b), s);
  }

  lemma ScanOpening(open: seq<string>, b: nat, indent: string, name: string)
    requires IsName(name) && forall i :: 0 <= i < |indent| ==> indent[i] == ' '
    ensures Scan(Text(open, b), indent + ("<" + name)) == Name(open, name)
  {
    ScanAppend(Text(open, b), indent, "<" + name);
    ScanBlank(open, b, indent);
    var k := Scan(Text(open, b), indent);
    ScanAppend(k, "<", name);
    ScanOne(k, '<');
    assert Scan(Less(open), name) == Scan(Name(open, [name[0]]), name[1..]);
    ScanName(open, [name[0]], name[1..]);
    assert [name[0]] + name[1..] == name;
  }

  lemma ScanClosing(open: seq<string>, b: nat, indent: string, name: string)
    requires IsName(name) && forall i :: 0 <= i < |indent| ==> indent[i] == ' '
    ensures Scan(Text(open + [name], b), indent + ("</" + (name + ">\n"))) == Text(open, 0)
  {
    hide Scan;
    var k := Text(open + [name], b);
    var tail := name + ">\n";
    ScanAppend(k, indent, "</" + tail);
    ScanBlank(open + [name], b, indent);
    ScanAppend(Scan(k, indent), "</", tail);
    ScanTwo(Scan(k, indent), '<', '/');
    ScanAppend(EndName(open + [name], ""), name, ">\n");
    ScanEndName(open + [name], "", name);
    assert "" + name == name;
    ScanTwo(EndName(open + [name], name), '>', '\n');
    assert (open + [name])[..|open|] == open;
  }

  /** What an attribute looks like. */
  function AttributeText(name: string, value: string): string {
    " " + (name + ("=\"" + (Encoded(value, 0, true) + "\"")))
  }

  lemma ScanAttribute(k: Scanner, name: string, value: string)
    requires (k.Name? || k.Quoted?) && IsName(name)
    ensures Scan(k, AttributeText(name, value)) == if Foreign(value, 0) then Bad else Quoted(k.open, k.name)
  {
    var e := Encoded(value, 0, true);
    ScanAppend(k, " ", name + ("=\"" + (e + "\"")));
    ScanOne(k, ' ');
    ScanAppend(Space(k.open, k.name), name, "=\"" + (e + "\""));
    assert Scan(Space(k.open, k.name), name) == Scan(Attribute(k.open, k.name), name[1..]);
    ScanAttributeName(k.open, k.name, name[1..]);
    ScanAppend(Attribute(k.open, k.name), "=\"", e + "\"");
    ScanTwo(Attribute(k.open, k.name), '=', '"');
    ScanAppend(Quote(k.open, k.name), e, "\"");
    EncodedValue(k.open, k.name, value, 0);
    ScanOne(Quote(k.open, k.name), '"');
    BadStaysBad("\"");
  }

  /** The end tags still missing, innermost first. */
  function Closing(tags: seq<string>, tagIsOpen: bool, needsNewline: bool): string {
    if tags == [] then ""
    else
      var n := |tags| - 1;
      (if needsNewline then "\n" else "")
      + (if tagIsOpen then "/>\n" else Spaces(2 * n) + ("</" + (tags[n] + ">\n")))
      + Closing(tags[..n], false, false)
  }

  lemma NoBracketsYet(b: nat, s: string)
    ensures Brackets(b, s, 0) == b
  {
  }

  lemma BracketsBound(b: nat, s: string, i: nat)
    requires i <= |s| && b <= 2
    ensures Brackets(b, s, i) <= 2
  {
  }

  lemma ScanEmptyElement(k: Scanner)
    requires k.Name? || k.Quoted?
    ensures Scan(k, "/>\n") == Text(k.open, 0)
  {
    assert "/>\n" == "/" + ">\n";
    ScanAppend(k, "/", ">\n");
    ScanOne(k, '/');
    ScanTwo(Slash(k.open), '>', '\n');
  }

  lemma {:induction false} ScanInstruction(open: seq<string>, s: string)
    requires '>' !in s && forall i :: 0 <= i < |s| ==> XmlChar(s[i])
    ensures Scan(Instruction(open), s) == Instruction(open)
    decreases |s|
  {
    if s != "" {
      ScanInstruction(open, s[1..]);
    }
  }

  const DECLARATION := "xml version=\"1.0\" encoding=\"UTF-8\"?"

  lemma NoEndInside()
    ensures '>' !in DECLARATION && forall i :: 0 <= i < |DECLARATION| ==> XmlChar(DECLARATION[i])
  {
  }

  lemma ScanDeclaration(k: Scanner)
    requires k.Text?
    ensures Scan(k, "<?" + (DECLARATION + ">\n")) == Text(k.open, 0)
  {
    NoEndInside();
    hide Scan, DECLARATION;
    ScanAppend(k, "<?", DECLARATION + ">\n");
    ScanTwo(k, '<', '?');
    ScanAppend(Instruction(k.open), DECLARATION, ">\n");
    ScanInstruction(k.open, DECLARATION);
    ScanTwo(Instruction(k.open), '>', '\n');
  }

  // ---------------------------------------------------------------------------------------
  // The writer
  // ---------------------------------------------------------------------------------------

  /** The scanner has just read a start tag that is still open, of the last of these elements. */
  predicate InTag(k: Scanner, tags: seq<string>) {
    tags != [] && (k.Name? || k.Quoted?) && k.open == tags[..|tags| - 1] && k.name == tags[|tags| - 1]
  }

  class XmlWriter {
    var tagIsOpen: bool
    var needsNewline: bool
    var tags: seq<string>
    var indent: string
    var os: string

    /** Two spaces for each open element; no newline is due inside a tag. */
    ghost predicate Valid()
      reads this
    {
      && indent == Spaces(2 * |tags|) && (forall i :: 0 <= i < |tags| ==> IsName(tags[i]))
      && (tagIsOpen ==> tags != [] && !needsNewline)
    }

    /** What has been written is a beginning of a well-nested document; `tags` are its open
        elements, outermost first. */
    ghost predicate WellFormed()
      reads this
    {
      var k := Scan(START, os);
      if tagIsOpen then InTag(k, tags) else k.Text? && k.open == tags && k.brackets <= 2
    }

    constructor ()
      ensures Valid() && WellFormed() && tags == [] && os == "" && !tagIsOpen
    {
      tagIsOpen, needsNewline, tags, indent, os := false, false, [], "", "";
    }

    method WriteDeclaration()
      requires Valid() && !tagIsOpen
      modifies `os
      ensures Valid() && old(os) < os && tags == old(tags) && (old(WellFormed()) ==> WellFormed())
    {
      hide Scan, DECLARATION;
      ghost var k := Scan(START, os);
      ScanAppend(START, os, "<?" + (DECLARATION + ">\n"));
      if k.Text? {
        ScanDeclaration(k);
      }
      os := os + ("<?" + (DECLARATION + ">\n"));
    }

    method EnsureTagClosed()
      requires Valid()
      modifies `tagIsOpen, `os
      ensures Valid() && !tagIsOpen && os == (if old(tagIsOpen) then old(os) + ">\n" else old(os))
      ensures old(WellFormed()) ==> WellFormed() && (old(tagIsOpen) ==> Scan(START, os) == Text(tags, 0))
    {
      if tagIsOpen {
        ghost var k := Scan(START, os);
        ScanAppend(START, os, ">\n");
        ScanTwo(k, '>', '\n');
        os := os + ">\n";
        tagIsOpen := false;
        assert tags[..|tags| - 1] + [tags[|tags| - 1]] == tags;
      }
    }

    method NewlineIfNecessary()
      requires Valid()
      modifies `needsNewline, `os
      ensures Valid() && !needsNewline && os == old(os) + if old(needsNewline) then "\n" else ""
      ensures old(WellFormed()) ==> WellFormed()
    {
      if needsNewline {
        ScanAppend(START, os, "\n");
        ScanOne(Scan(START, os), '\n');
        os := os + "\n";
        needsNewline := false;
      }
    }

    method StartElement(name: string)
      requires Valid() && IsName(name)
      modifies this
      ensures Valid() && tags == old(tags) + [name] && tagIsOpen
      ensures os == old(os) + (if old(tagIsOpen) then ">\n" else "") + (if old(needsNewline) then "\n" else "")
                    + (Spaces(2 * |old(tags)|) + ("<" + name))
      ensures old(WellFormed()) ==> WellFormed()
    {
      hide Scan, Step, IsName;
      EnsureTagClosed();
      NewlineIfNecessary();
      ghost var k := Scan(START, os);
      ScanAppend(START, os, indent + ("<" + name));
      if k.Text? {
        ScanOpening(k.open, k.brackets, indent, name);
      }
      os := os + (indent + ("<" + name));
      tags := tags + [name];
      indent := indent + "  ";
      tagIsOpen := true;
      assert tags[..|tags| - 1] == old(tags);
    }

    method EndElement()
      requires Valid() && tags != []
      modifies this
      ensures Valid() && tags == old(tags)[..|old(tags)| - 1] && !tagIsOpen && !needsNewline
      ensures os == old(os) + (if old(needsNewline) then "\n" else "")
                    + (if old(tagIsOpen) then "/>\n"
                       else Spaces(2 * |tags|) + ("</" + (old(tags)[|tags|] + ">\n")))
      ensures old(WellFormed()) ==> WellFormed()
    {
      hide Scan, Step, IsName;
      NewlineIfNecessary();
      indent := indent[..|indent| - 2];
      ghost var k, n, name := Scan(START, os), |tags| - 1, tags[|tags| - 1];
      assert tags == tags[..n] + [name];
      if tagIsOpen {
        ScanAppend(START, os, "/>\n");
        if k.Name? || k.Quoted? {
          ScanEmptyElement(k);
        }
        os := os + "/>\n";
        tagIsOpen := false;
      } else {
        ScanAppend(START, os, indent + ("</" + (name + ">\n")));
        if k.Text? {
          ScanClosing(tags[..n], k.brackets, indent, name);
        }
        os := os + (indent + ("</" + (tags[|tags| - 1] + ">\n")));
      }
      tags := tags[..|tags| - 1];
    }

    /** An attribute without a name or without a value is not written. One that is written keeps the
        document well formed unless a foreign character is let through. */
    method WriteAttribute(name: string, value: string)
      requires Valid() && tagIsOpen && (name != "" ==> IsName(name))
      modifies `os
      ensures Valid() && os == old(os) + if name == "" || value == "" then "" else AttributeText(name, value)
      ensures old(WellFormed()) ==> (WellFormed() <==> name == "" || !Foreign(value, 0))
    {
      if name != "" && value != "" {
        var encoded := EncodeTo(value, true);
        var text := " " + (name + ("=\"" + (encoded + "\"")));
        ghost var k := Scan(START, os);
        ScanAppend(START, os, text);
        if k.Name? || k.Quoted? {
          ScanAttribute(k, name, value);
        }
        os := os + text;
      }
    }

    /** The text is the content of the last open element. The document stays well formed, unless
        the text ends a `]]>` within its first three characters or a foreign one is let through. */
    method WriteText(text: string, withIndent: bool)
      requires Valid()
      modifies this
      ensures Valid() && tags == old(tags)
      ensures text == "" ==> os == old(os) && tagIsOpen == old(tagIsOpen) && needsNewline == old(needsNewline)
      ensures text != "" ==>
                && !tagIsOpen && needsNewline
                && os == old(os) + (if old(tagIsOpen) then ">\n" else "")
                         + (if old(tagIsOpen) && withIndent then indent else "") + Encoded(text, 0, false)
      ensures old(WellFormed()) && text != "" ==>
                var b := if old(tagIsOpen) then 0 else old(Scan(START, os)).brackets;
                (WellFormed() <==> !Unprotected(b, text, 0) && !Foreign(text, 0))
    {
      if text != "" {
        hide Scan, Step, Encoded, Brackets, Unprotected, Foreign;
        var tagWasOpen := tagIsOpen;
        EnsureTagClosed();
        if tagWasOpen && withIndent {
          Indent();
        }
        WriteContent(text);
      }
    }

    method Indent()
      requires Valid() && !tagIsOpen
      modifies `os
      ensures Valid() && os == old(os) + indent
      ensures old(Scan(START, os)) == Text(tags, 0) ==> Scan(START, os) == Text(tags, 0)
    {
      ghost var k := Scan(START, os);
      hide Scan, Step;
      ScanAppend(START, os, indent);
      if k.Text? {
        ScanBlank(k.open, k.brackets, indent);
      }
      os := os + indent;
    }

    method WriteContent(text: string)
      requires Valid() && !tagIsOpen
      modifies `os, `needsNewline
      ensures Valid() && needsNewline && os == old(os) + Encoded(text, 0, false)
      ensures old(WellFormed()) ==>
                (WellFormed() <==> !Unprotected(old(Scan(START, os)).brackets, text, 0) && !Foreign(text, 0))
    {
      hide Scan, Step, Encoded, Brackets, Unprotected, Foreign;
      var encoded := EncodeTo(text, false);
      ghost var l := Scan(START, os);
      ScanAppend(START, os, encoded);
      if l.Text? && l.brackets <= 2 {
        NoBracketsYet(l.brackets, text);
        EncodedText(l.open, l.brackets, text, 0);
        BracketsBound(l.brackets, text, |text|);
      }
      os := os + encoded;
      needsNewline := true;
    }

    /** The destructor closes what is still open, innermost first: what was written is completed
        to a whole document. */
    method Destroy()
      requires Valid()
      modifies this
      ensures Valid() && tags == [] && old(os) <= os
      ensures old(WellFormed()) ==> Scan(START, os).Text? && Scan(START, os).open == []
      ensures os == old(os) + Closing(old(tags), old(tagIsOpen), old(needsNewline))
    {
      assert os + Closing(tags, tagIsOpen, needsNewline)
          == old(os) + Closing(old(tags), old(tagIsOpen), old(needsNewline));
      while tags != []
        invariant Valid() && old(os) <= os && (old(WellFormed()) ==> WellFormed())
        invariant os + Closing(tags, tagIsOpen, needsNewline)
               == old(os) + Closing(old(tags), old(tagIsOpen), old(needsNewline))
        decreases |tags|
      {
        ghost var rest := Closing(tags[..|tags| - 1], false, false);
        ghost var first := (if needsNewline then "\n" else "")
                           + (if tagIsOpen then "/>\n"
                             else Spaces(2 * (|tags| - 1)) + ("</" + (tags[|tags| - 1] + ">\n")));
        ghost var was := os;
        EndElement();
        assert os == was + first;
        Reassociate(was, first, rest);
      }
      assert os + "" == os;
    }
  }
}
