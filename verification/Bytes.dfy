/** Byte strings, and the two notions of white space the log parser depends on. */
module Bytes {

  newtype byte = b: int | 0 <= b < 256

  type Bytes = seq<byte>

  const LF: byte := 0x0A
  const CR: byte := 0x0D

  /** White space between JSON tokens, section 2 of RFC 8259: space, tab, line feed, carriage return. */
  predicate IsJsonSpace(b: byte) {
    b == 0x20 || b == 0x09 || b == LF || b == CR
  }

  predicate JsonSpace(s: Bytes) {
    forall i :: 0 <= i < |s| ==> IsJsonSpace(s[i])
  }

  /** Length of the UTF-8 encoded white-space rune at the front of s, or 0: what bytes.TrimSpace removes. */
  function SpaceRune(s: Bytes): (n: nat)
    ensures n <= |s|
  {
    if |s| >= 1 && (0x09 <= s[0] <= 0x0D || s[0] == 0x20) then 1
    else if |s| >= 2 && s[0] == 0xC2 && (s[1] == 0x85 || s[1] == 0xA0) then 2
    else if |s| >= 3 && s[0] == 0xE1 && s[1] == 0x9A && s[2] == 0x80 then 3
    else if |s| >= 3 && s[0] == 0xE2 && s[1] == 0x80
            && (0x80 <= s[2] <= 0x8A || s[2] == 0xA8 || s[2] == 0xA9 || s[2] == 0xAF) then 3
    else if |s| >= 3 && s[0] == 0xE2 && s[1] == 0x81 && s[2] == 0x9F then 3
    else if |s| >= 3 && s[0] == 0xE3 && s[1] == 0x80 && s[2] == 0x80 then 3
    else 0
  }

  /** The line trims to nothing. */
  predicate Blank(s: Bytes) {
    s == [] || (SpaceRune(s) > 0 && Blank(s[SpaceRune(s)..]))
  }

  function TrimCR(s: Bytes): Bytes {
    if s != [] && s[|s| - 1] == CR then s[..|s| - 1] else s
  }

  lemma {:induction false} JsonSpaceIsBlank(s: Bytes)
    requires JsonSpace(s)
    ensures Blank(s)
  {
    if s == [] {
    } else {
      JsonSpaceIsBlank(s[1..]);
    }
  }

  /** A carriage return at the end of a line does not decide whether the line is blank. */
  lemma {:induction false} BlankIgnoresCR(s: Bytes)
    ensures Blank(TrimCR(s)) == Blank(s)
    decreases |s|
  {
    if s != [] && s[|s| - 1] == CR {
      var k := SpaceRune(s);
      if k == 0 {
        assert TrimCR(s) != [];
      } else if k == |s| {
        assert s == [CR];
      } else {
        assert SpaceRune(TrimCR(s)) == k;
        var rest := s[k..];
        assert rest[|rest| - 1] == CR;
        assert s[..|s| - 1][k..] == rest[..|rest| - 1];
        BlankIgnoresCR(s[k..]);
      }
    }
  }

  // ------------------------------------------------------------------ lines

  /** Index of the first line feed, or the length when there is none. */
  function LineEnd(c: Bytes): (k: nat)
    ensures k <= |c|
  {
    if c == [] || c[0] == LF then 0 else LineEnd(c[1..]) + 1
  }

  /** The lines that a line feed ends, without it. */
  function Lines(c: Bytes): seq<Bytes>
    decreases |c|
  {
    if LineEnd(c) == |c| then [] else [c[..LineEnd(c)]] + Lines(c[LineEnd(c) + 1..])
  }

  /** What follows the last line feed. */
  function Tail(c: Bytes): (t: Bytes)
    ensures |t| <= |c|
    decreases |c|
  {
    if LineEnd(c) == |c| then c else Tail(c[LineEnd(c) + 1..])
  }

  lemma {:induction false} TailIsSuffix(c: Bytes)
    ensures c[|c| - |Tail(c)|..] == Tail(c)
    ensures LineEnd(Tail(c)) == |Tail(c)|
    decreases |c|
  {
    hide *;
    if LineEnd(c) < |c| {
      TailIsSuffix(c[LineEnd(c) + 1..]);
      LinesFrom(c);
    } else {
      OnlyTail(c);
    }
  }

  lemma LineEndAppend(p: Bytes, s: Bytes)
    ensures LineEnd(p) < |p| ==> LineEnd(p + s) == LineEnd(p)
    ensures LineEnd(p) == |p| ==> LineEnd(p + s) == |p| + LineEnd(s)
  {
    if p == [] {
      assert p + s == s;
    } else if p[0] != LF {
      LineEndAppend(p[1..], s);
      assert (p + s)[1..] == p[1..] + s;
    }
  }

  /** The only line an append can change is the unterminated last one. */
  lemma {:induction false} LinesAppend(p: Bytes, s: Bytes)
    ensures Lines(p + s) == Lines(p) + Lines(Tail(p) + s)
    ensures Tail(p + s) == Tail(Tail(p) + s)
    decreases |p|
  {
    hide *;
    LineEndAppend(p, s);
    var k := LineEnd(p);
    if k < |p| {
      assert (p + s)[k + 1..] == p[k + 1..] + s;
      assert (p + s)[..k] == p[..k];
      LinesAppend(p[k + 1..], s);
      LinesFrom(p);
      LinesFrom(p + s);
    } else {
      OnlyTail(p);
    }
  }

  lemma LinesFrom(c: Bytes)
    requires LineEnd(c) < |c|
    ensures Lines(c) == [c[..LineEnd(c)]] + Lines(c[LineEnd(c) + 1..]) && Tail(c) == Tail(c[LineEnd(c) + 1..])
  {
    hide LineEnd;
  }

  lemma OnlyTail(c: Bytes)
    requires LineEnd(c) == |c|
    ensures Lines(c) == [] && Tail(c) == c
  {
    hide LineEnd;
  }

  lemma NoLineEnd(s: Bytes)
    requires LF !in s
    ensures LineEnd(s) == |s|
  {
  }

  lemma OneLine(s: Bytes)
    requires LF !in s
    ensures Lines(s + [LF]) == [s] && Tail(s + [LF]) == []
    ensures Lines(s) == [] && Tail(s) == s
  {
    NoLineEnd(s);
    LineEndAppend(s, [LF]);
    var c := s + [LF];
    assert c[..|s|] == s;
    assert c[|s| + 1..] == [];
  }

  /** A line feed turns the unterminated tail into a line. */
  lemma LineEnded(p: Bytes, s: Bytes)
    requires Tail(p) == [] && LF !in s
    ensures Lines(p + (s + [LF])) == Lines(p) + [s] && Tail(p + (s + [LF])) == []
    ensures Lines(p + s) == Lines(p) && Tail(p + s) == s
  {
    LinesAppend(p, s + [LF]);
    LinesAppend(p, s);
    OneLine(s);
    assert Tail(p) + s == s;
    assert Tail(p) + (s + [LF]) == s + [LF];
  }

  /** Sequence facts for scanning: the part read so far, the current line, and its end. */
  lemma Slices(c: Bytes, start: nat, mid: nat, end: nat)
    requires start <= mid <= end <= |c|
    ensures c[start..mid] + c[mid..end] == c[start..end]
    ensures end == |c| ==> c[mid..end] == c[mid..] && c[start..end] == c[start..]
    ensures end < |c| && c[end] == LF ==> c[start..mid] + (c[mid..end] + [LF]) == c[start..end + 1]
    ensures end < |c| && c[end] != LF && LF !in c[mid..end] ==> LF !in c[mid..end + 1]
  {
    if end < |c| {
      assert c[mid..end + 1] == c[mid..end] + [c[end]];
    }
  }
}
