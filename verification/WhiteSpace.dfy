/** The white space of the log parser, byte by byte, is that of strings, encoded. */
module WhiteSpace {
  import opened Bytes
  import Text

  /** UTF-8 up to three bytes, section 3 of RFC 3629. */
  function Utf8(c: int): Bytes
    requires 0 <= c < 0x10000
  {
    if c < 0x80 then [c as byte]
    else if c < 0x800 then [(0xC0 + c / 64) as byte, (0x80 + c % 64) as byte]
    else [(0xE0 + c / 4096) as byte, (0x80 + c / 64 % 64) as byte, (0x80 + c % 64) as byte]
  }

  lemma SpacesAreShort(c: char)
    requires Text.IsSpace(c)
    ensures c as int < 0x10000
  {
  }

  /** Text of white space only, encoded. */
  function Encoded(text: string): Bytes
    requires Text.AllSpace(text)
  {
    if text == "" then []
    else
      SpacesAreShort(text[0]);
      Utf8(text[0] as int) + Encoded(text[1..])
  }

  lemma SpaceIsFound(c: char, rest: Bytes)
    requires Text.IsSpace(c)
    ensures c as int < 0x10000 && SpaceRune(Utf8(c as int) + rest) == |Utf8(c as int)| > 0
  {
    Text.SpacesAre();
  }

  /** What is found at the front of some bytes is the encoding of a white-space character. */
  lemma FoundIsSpace(s: Bytes) returns (c: char)
    requires SpaceRune(s) > 0
    ensures Text.IsSpace(c) && c as int < 0x10000 && Utf8(c as int) == s[..SpaceRune(s)]
  {
    var n := SpaceRune(s);
    if n == 1 {
      c := s[0] as char;
    } else if n == 2 {
      c := s[1] as char;
    } else {
      c := ((s[0] as int - 0xE0) * 4096 + (s[1] as int - 0x80) * 64 + (s[2] as int - 0x80)) as char;
      ThreeBytes(s[0] as int - 0xE0, s[1] as int - 0x80, s[2] as int - 0x80);
    }
  }

  lemma ThreeBytes(a: int, b: int, c: int)
    requires 1 <= a < 16 && 0 <= b < 64 && 0 <= c < 64
    ensures var n := a * 4096 + b * 64 + c;
      n / 4096 == a && n / 64 % 64 == b && n % 64 == c
  {
    var n := a * 4096 + b * 64 + c;
    assert n / 64 == a * 64 + b;
  }

  /** A line is blank exactly when it is white-space text. */
  lemma BlankIff(s: Bytes)
    ensures Blank(s) <==> exists text :: Text.AllSpace(text) && Encoded(text) == s
  {
    if Blank(s) {
      var text := TextOf(s);
      assert Encoded(text) == s;
    }
    if text :| Text.AllSpace(text) && Encoded(text) == s {
      EncodedIsBlank(text);
    }
  }

  lemma {:induction false} TextOf(s: Bytes) returns (text: string)
    requires Blank(s)
    ensures Text.AllSpace(text) && Encoded(text) == s
    decreases |s|
  {
    hide Text.IsSpace, SpaceRune, Utf8;
    if s == [] {
      text := "";
    } else {
      var c := FoundIsSpace(s);
      var rest := TextOf(s[SpaceRune(s)..]);
      text := [c] + rest;
      assert text[1..] == rest;
    }
  }

  lemma {:induction false} EncodedIsBlank(text: string)
    requires Text.AllSpace(text)
    ensures Blank(Encoded(text))
  {
    hide Text.IsSpace, SpaceRune, Utf8;
    if text != "" {
      assert text[0] in text;
      SpaceIsFound(text[0], Encoded(text[1..]));
      EncodedIsBlank(text[1..]);
      var s, n := Encoded(text), |Utf8(text[0] as int)|;
      assert s[n..] == Encoded(text[1..]);
    }
  }

  /** JSON knows four of these only. */
  lemma JsonSpacesAre()
    ensures forall b: byte :: IsJsonSpace(b) <==> b in {0x20, 0x09, 0x0A, 0x0D}
  {
  }
}
