/** Percent encoding as the OCPP library does it, and decoding as the web server does it. A
    character is a byte. */
module UrlCodec {
  import opened Basics

  type Byte = c: char | c as int < 256 witness 'a'

  predicate Alphanumeric(c: Byte) {
    'A' <= c <= 'Z' || 'a' <= c <= 'z' || '0' <= c <= '9'
  }

  /** RFC 3986, section 2.3. */
  predicate Unreserved(c: Byte) {
    Alphanumeric(c) || c == '-' || c == '_' || c == '.' || c == '~'
  }

  // ---------------------------------------------------------------------------------------
  // Encoding
  // ---------------------------------------------------------------------------------------

  /** A byte from 128 on is negative as a `char`, hence eight digits long as an `int`. */
  function Code(c: Byte): (code: seq<Byte>)
    ensures code != []
  {
    var n := c as int;
    if Unreserved(c) then [c]
    else if n < 128 then ['%', HexDigit(n / 16), HexDigit(n % 16)]
    else ['%', 'F', 'F', 'F', 'F', 'F', 'F', HexDigit(n / 16), HexDigit(n % 16)]
  }

  function Encoded(url: seq<Byte>): seq<Byte> {
    if url == [] then [] else Code(url[0]) + Encoded(url[1..])
  }

  method MustEncode(c: Byte) returns (encode: bool)
    ensures encode <==> !Unreserved(c)
  {
    var unreserved: seq<Byte> := ['-', '_', '.', '~'];
    encode := true;
    if Alphanumeric(c) {
      encode := false;
    } else {
      var i := 0;
      while i < |unreserved| && encode
        invariant 0 <= i <= |unreserved|
        invariant encode <==> c !in unreserved[..i]
        invariant c in unreserved[..i] ==> c in unreserved
      {
        if c == unreserved[i] {
          encode := false;
        }
        i := i + 1;
      }
      assert encode ==> unreserved[..i] == unreserved;
    }
  }

  method Encode(url: seq<Byte>) returns (encoded: seq<Byte>)
    ensures encoded == Encoded(url)
  {
    hide Code, Encoded, HexOfChar, Unreserved;
    encoded := [];
    var k := 0;
    EncodedToTheEnd(url);
    while k < |url|
      invariant 0 <= k <= |url| && encoded + Encoded(url[k..]) == Encoded(url)
    {
      var c := url[k];
      CodeIs(c);
      EncodedUnfolds(encoded, url, k);
      var encode := MustEncode(c);
      if encode {
        encoded := encoded + (['%'] + HexOfChar(c));
      } else {
        encoded := encoded + [c];
      }
      k := k + 1;
    }
  }

  lemma EncodedToTheEnd(url: seq<Byte>)
    ensures [] + Encoded(url[0..]) == Encoded(url) && Encoded(url[|url|..]) == []
  {
    assert url[0..] == url;
  }

  lemma CodeIs(c: Byte)
    ensures Code(c) == if Unreserved(c) then [c] else ['%'] + HexOfChar(c)
  {
  }

  lemma EncodedUnfolds(before: seq<Byte>, url: seq<Byte>, k: nat)
    requires k < |url|
    ensures before + Encoded(url[k..]) == before + Code(url[k]) + Encoded(url[k + 1..])
  {
    assert url[k..][1..] == url[k + 1..];
    Reassociate(before, Code(url[k]), Encoded(url[k + 1..]));
  }

  lemma Reassociate(a: seq<Byte>, b: seq<Byte>, c: seq<Byte>)
    ensures a + b + c == a + (b + c)
  {
  }

  /** Two hexadecimal digits at least, of the signed value as an unsigned 32-bit integer. */
  function HexOfChar(c: Byte): seq<Byte> {
    var n := c as int;
    (if n < 128 then [] else ['F', 'F', 'F', 'F', 'F', 'F']) + [HexDigit(n / 16), HexDigit(n % 16)]
  }

  // ---------------------------------------------------------------------------------------
  // Decoding
  // ---------------------------------------------------------------------------------------

  predicate Blank(c: Byte) {
    c == ' ' || 9 <= c as int <= 13
  }

  /** What a stream reads as a hexadecimal integer from two characters: it skips white space,
      accepts a sign, and stops at the first character that is no digit; a lone prefix fails. */
  function ReadHex(a: Byte, b: Byte): Option<int> {
    var x, y := HexValue(a), HexValue(b);
    if x.Some? then
      if y.Some? then Some(16 * x.value + y.value)
      else if a == '0' && (b == 'x' || b == 'X') then None
      else Some(x.value)
    else if y.Some? && (Blank(a) || a == '+') then Some(y.value)
    else if y.Some? && a == '-' then Some(0 - y.value)
    else None
  }

  function AsChar(value: int): Byte {
    (value % 256) as char
  }

  /** The decoding of a text from a position on. */
  function Decoded(s: seq<Byte>, i: nat): seq<Byte>
    requires i <= |s|
    decreases |s| - i
  {
    if i == |s| then []
    else if s[i] == '%' && i + 2 < |s| && ReadHex(s[i + 1], s[i + 2]).Some? then
      [AsChar(ReadHex(s[i + 1], s[i + 2]).value)] + Decoded(s, i + 3)
    else if s[i] == '+' then [' '] + Decoded(s, i + 1)
    else [s[i]] + Decoded(s, i + 1)
  }

  /** What the loop makes of position `i`: one character, and where it goes on. */
  lemma DecodedUnfolds(s: seq<Byte>, i: nat, c: Byte, next: nat)
    requires i < |s|
    requires var value := if s[i] == '%' && i + 2 < |s| then ReadHex(s[i + 1], s[i + 2]) else None;
             if value.Some? then c == AsChar(value.value) && next == i + 3
             else c == (if s[i] == '+' then ' ' else s[i]) && next == i + 1
    ensures next <= |s| && Decoded(s, i) == [c] + Decoded(s, next)
  {
  }

  method UrlDecode(encoded: seq<Byte>) returns (result: seq<Byte>)
    ensures result == Decoded(encoded, 0)
  {
    hide Decoded, ReadHex, AsChar;
    result := [];
    var i := 0;
    while i < |encoded|
      invariant 0 <= i <= |encoded| && result + Decoded(encoded, i) == Decoded(encoded, 0)
    {
      ghost var was, at := result, i;
      var c: Byte;
      if encoded[i] == '%' && i + 2 < |encoded| {
        var value := ReadHex(encoded[i + 1], encoded[i + 2]);
        if value.Some? {
          c := AsChar(value.value);
          i := i + 2;
        } else {
          c := encoded[i];
        }
      } else if encoded[i] == '+' {
        c := ' ';
      } else {
        c := encoded[i];
      }
      result := result + [c];
      i := i + 1;
      DecodedUnfolds(encoded, at, c, i);
      Reassociate(was, [c], Decoded(encoded, i));
    }
    DecodedAtEnd(encoded);
  }

  lemma DecodedAtEnd(s: seq<Byte>)
    ensures Decoded(s, |s|) == []
  {
  }

  // ---------------------------------------------------------------------------------------
  // Round trip
  // ---------------------------------------------------------------------------------------

  lemma DigitReads(n: nat)
    requires n < 16
    ensures HexValue(HexDigit(n)) == Some(n)
  {
  }

  /** What comes after the first triplet in the code of a byte from 128 on. */
  function Digits(n: nat): (digits: seq<Byte>)
    requires n < 256
    ensures |digits| == 6
  {
    ['F', 'F', 'F', 'F', HexDigit(n / 16), HexDigit(n % 16)]
  }

  /** What the code of a byte decodes to. */
  function Back(c: Byte): seq<Byte> {
    if c as int < 128 then [c]
    else [AsChar(255)] + Digits(c as int)
  }

  /** Characters that stand for themselves. */
  lemma {:induction false} DecodePlain(s: seq<Byte>, i: nat, a: seq<Byte>)
    requires i + |a| <= |s| && s[i..i + |a|] == a && '%' !in a && '+' !in a
    ensures Decoded(s, i) == a + Decoded(s, i + |a|)
    decreases |a|
  {
    hide Decoded, ReadHex;
    if a == [] {
      assert a + Decoded(s, i) == Decoded(s, i);
    } else {
      assert s[i] == s[i..i + |a|][0] == a[0];
      assert a[0] in a;
      assert s[i + 1..i + 1 + |a[1..]|] == s[i..i + |a|][1..] == a[1..];
      DecodedUnfolds(s, i, a[0], i + 1);
      DecodePlain(s, i + 1, a[1..]);
      Reassociate([a[0]], a[1..], Decoded(s, i + |a|));
      assert a == [a[0]] + a[1..];
    }
  }

  lemma DecodeTriplet(s: seq<Byte>, i: nat, n: nat)
    requires n < 256 && i + 3 <= |s| && s[i] == '%' && s[i + 1] == HexDigit(n / 16) && s[i + 2] == HexDigit(n % 16)
    ensures Decoded(s, i) == [AsChar(n)] + Decoded(s, i + 3)
  {
    DigitReads(n / 16);
    DigitReads(n % 16);
    DecodedUnfolds(s, i, AsChar(n), i + 3);
  }

  lemma DecodeCode(s: seq<Byte>, i: nat, c: Byte)
    requires i + |Code(c)| <= |s| && s[i..i + |Code(c)|] == Code(c)
    ensures Decoded(s, i) == Back(c) + Decoded(s, i + |Code(c)|)
  {
    hide Decoded, HexDigit;
    if Unreserved(c) {
      DecodePlain(s, i, [c]);
    } else if c as int < 128 {
      var part := s[i..i + 3];
      assert s[i] == part[0] && s[i + 1] == part[1] && s[i + 2] == part[2];
      DecodeTriplet(s, i, c as int);
    } else {
      TailOf(s, i, 3, 9);
      var part := s[i..i + 9];
      assert s[i] == part[0] && s[i + 1] == part[1] && s[i + 2] == part[2];
      assert Code(c)[3..] == Digits(c as int);
      DecodeHighCode(s, i, c as int);
    }
  }

  lemma TailOf(s: seq<Byte>, i: nat, k: nat, n: nat)
    requires k <= n && i + n <= |s|
    ensures s[i + k..i + n] == s[i..i + n][k..]
  {
  }

  lemma DecodeHighCode(s: seq<Byte>, i: nat, n: nat)
    requires 128 <= n < 256 && i + 9 <= |s| && s[i] == '%' && s[i + 1] == 'F' && s[i + 2] == 'F'
    requires s[i + 3..i + 9] == Digits(n)
    ensures Decoded(s, i) == [AsChar(255)] + Digits(n) + Decoded(s, i + 9)
  {
    DecodeFF(s, i);
    NoSpecialDigit(n);
    hide Decoded, AsChar, Digits;
    DecodePlain(s, i + 3, Digits(n));
    Reassociate([AsChar(255)], Digits(n), Decoded(s, i + 9));
  }

  lemma DecodeFF(s: seq<Byte>, i: nat)
    requires i + 3 <= |s| && s[i] == '%' && s[i + 1] == 'F' && s[i + 2] == 'F'
    ensures Decoded(s, i) == [AsChar(255)] + Decoded(s, i + 3)
  {
    hide Decoded, AsChar;
    assert HexDigit(255 / 16) == 'F' && HexDigit(255 % 16) == 'F';
    DecodeTriplet(s, i, 255);
  }

  lemma NoSpecialDigit(n: nat)
    requires n < 256
    ensures '%' !in Digits(n) && '+' !in Digits(n)
  {
  }

  function AllBack(url: seq<Byte>): seq<Byte> {
    if url == [] then [] else Back(url[0]) + AllBack(url[1..])
  }

  lemma {:induction false} DecodeEncoded(before: seq<Byte>, url: seq<Byte>)
    ensures Decoded(before + Encoded(url), |before|) == AllBack(url)
    decreases |url|
  {
    var s := before + Encoded(url);
    if url == [] {
      assert s == before;
    } else {
      var code := Code(url[0]);
      assert s == before + code + Encoded(url[1..]);
      assert s[|before|..|before| + |code|] == code;
      DecodeCode(s, |before|, url[0]);
      DecodeEncoded(before + code, url[1..]);
    }
  }

  predicate Ascii(url: seq<Byte>) {
    forall i :: 0 <= i < |url| ==> url[i] as int < 128
  }

  lemma {:induction false} AsciiComesBack(url: seq<Byte>)
    ensures |AllBack(url)| >= |url|
    ensures if Ascii(url) then AllBack(url) == url else |AllBack(url)| > |url|
  {
    if url != [] {
      AsciiComesBack(url[1..]);
      assert url == [url[0]] + url[1..];
      if Ascii(url[1..]) && url[0] as int < 128 {
        assert Ascii(url);
      }
    }
  }

  /** Decoding an encoded text gives it back if and only if all its bytes are below 128. */
  lemma RoundTripIff(url: seq<Byte>)
    ensures Decoded(Encoded(url), 0) == url <==> Ascii(url)
  {
    DecodeEncoded([], url);
    assert [] + Encoded(url) == Encoded(url);
    AsciiComesBack(url);
  }

  // ---------------------------------------------------------------------------------------
  // The encoding itself
  // ---------------------------------------------------------------------------------------

  predicate UpperHex(c: Byte) {
    '0' <= c <= '9' || 'A' <= c <= 'F'
  }

  /** Only unreserved characters and triplets (RFC 3986, sections 2.1 and 2.3). */
  predicate WellEncoded(s: seq<Byte>)
    decreases |s|
  {
    || s == []
    || (Unreserved(s[0]) && WellEncoded(s[1..]))
    || (|s| >= 3 && s[0] == '%' && UpperHex(s[1]) && UpperHex(s[2]) && WellEncoded(s[3..]))
  }

  lemma {:induction false} UnreservedThen(a: seq<Byte>, s: seq<Byte>)
    requires (forall i :: 0 <= i < |a| ==> Unreserved(a[i])) && WellEncoded(s)
    ensures WellEncoded(a + s)
    decreases |a|
  {
    if a == [] {
      assert a + s == s;
    } else {
      assert (a + s)[1..] == a[1..] + s;
      UnreservedThen(a[1..], s);
    }
  }

  lemma {:induction false} EncodedIsWellEncoded(url: seq<Byte>)
    ensures WellEncoded(Encoded(url))
  {
    if url != [] {
      EncodedIsWellEncoded(url[1..]);
      CodeThen(url[0], Encoded(url[1..]));
    }
  }

  lemma HexIsUnreserved(n: nat)
    requires n < 16
    ensures UpperHex(HexDigit(n)) && Unreserved(HexDigit(n))
  {
  }

  lemma CodeThen(c: Byte, rest: seq<Byte>)
    requires WellEncoded(rest)
    ensures WellEncoded(Code(c) + rest)
  {
    var code := Code(c);
    if Unreserved(c) {
      UnreservedThen(code, rest);
    } else {
      HexIsUnreserved(c as int / 16);
      HexIsUnreserved(c as int % 16);
      hide HexDigit, WellEncoded;
      UnreservedThen(code[3..], rest);
      assert (code + rest)[3..] == code[3..] + rest;
      TripletThen(code + rest);
    }
  }

  lemma TripletThen(s: seq<Byte>)
    requires |s| >= 3 && s[0] == '%' && UpperHex(s[1]) && UpperHex(s[2]) && WellEncoded(s[3..])
    ensures WellEncoded(s)
  {
  }

  /** No code is a beginning of another one. */
  lemma CodesArePrefixFree(a: Byte, b: Byte, s: seq<Byte>, t: seq<Byte>)
    requires Code(a) + s == Code(b) + t
    ensures a == b && s == t
  {
    var x, y := Code(a) + s, Code(b) + t;
    assert x[0] == Code(a)[0] && y[0] == Code(b)[0];
    if x[0] == '%' {
      assert x[1] == Code(a)[1] && y[1] == Code(b)[1] && x[2] == Code(a)[2] && y[2] == Code(b)[2];
      CodeLength(a);
      CodeLength(b);
      var n := |Code(a)|;
      assert Code(a)[n - 2] == x[n - 2] && Code(b)[n - 2] == y[n - 2] && Code(a)[n - 1] == x[n - 1]
             && Code(b)[n - 1] == y[n - 1];
      DigitReads(a as int / 16);
      DigitReads(b as int / 16);
      DigitReads(a as int % 16);
      DigitReads(b as int % 16);
      assert a as int == b as int;
    }
    assert s == x[|Code(a)|..] && t == y[|Code(b)|..];
  }

  lemma CodeLength(c: Byte)
    requires Code(c)[0] == '%'
    ensures |Code(c)| == if Code(c)[1] == 'F' && Code(c)[2] == 'F' then 9 else 3
  {
    DigitReads(c as int / 16);
    DigitReads(15);
  }

  /** Different texts are encoded differently, whatever their bytes. */
  lemma {:induction false} EncodingIsInjective(a: seq<Byte>, b: seq<Byte>)
    requires Encoded(a) == Encoded(b)
    ensures a == b
    decreases |a|
  {
    if a != [] && b != [] {
      CodesArePrefixFree(a[0], b[0], Encoded(a[1..]), Encoded(b[1..]));
      EncodingIsInjective(a[1..], b[1..]);
      assert a == [a[0]] + a[1..] && b == [b[0]] + b[1..];
    }
  }
}
