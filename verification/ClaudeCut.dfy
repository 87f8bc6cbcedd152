/**
 * Where a growing Claude log may be cut: parsing a prefix and then everything after its NextOffset gives what
 * one parse of the whole gives.
 */
module ClaudeCut {
  import opened Bytes
  import opened ClaudeLog

  // ------------------------------------------------------------------ what the decoder makes of blank bytes

  /** A line that trims to nothing does not decode, even when JSON would not call it white space. */
  lemma {:induction false} BlankIsMalformed(decode: Decoder, s: Bytes)
    requires JsonRows(decode) && Blank(s)
    ensures decode(s) == Malformed
  {
    if s != [] && IsJsonSpace(s[0]) {
      assert s == [s[0]] + s[1..];
      assert JsonSpace([s[0]]);
      BlankIsMalformed(decode, s[1..]);
    }
  }

  /** Bytes that trim to nothing but are not JSON white space spoil whatever follows them. */
  lemma {:induction false} ExoticBlankSpoils(decode: Decoder, w: Bytes, x: Bytes)
    requires JsonRows(decode) && Blank(w) && !JsonSpace(w)
    ensures decode(w + x) == Malformed
  {
    if IsJsonSpace(w[0]) {
      assert w + x == [w[0]] + (w[1..] + x);
      assert JsonSpace([w[0]]);
      var i :| 0 <= i < |w| && !IsJsonSpace(w[i]);
      assert w[1..][i - 1] == w[i];
      ExoticBlankSpoils(decode, w[1..], x);
    } else {
      assert (w + x)[0] == w[0];
    }
  }

  /** The blank test and the carriage return do not matter: a line contributes what it decodes to. */
  lemma RowOfLine(decode: Decoder, line: Bytes)
    requires JsonRows(decode)
    ensures RowOf(decode, line) == match decode(line) { case Usable(row) => [row] case _ => [] }
  {
    BlankIgnoresCR(line);
    if Blank(line) {
      BlankIsMalformed(decode, line);
    }
    DecodeIgnoresCR(decode, line);
  }

  lemma DecodeIgnoresCR(decode: Decoder, line: Bytes)
    requires JsonRows(decode)
    ensures decode(TrimCR(line)) == decode(line)
  {
    if line != [] && line[|line| - 1] == CR {
      assert line == TrimCR(line) + [CR];
      assert JsonSpace([CR]);
    }
  }

  // ------------------------------------------------------------------ well-formed logs

  /** Cut anywhere, the line's head is no complete value unless only white space is missing. */
  ghost predicate CleanLine(decode: Decoder, line: Bytes) {
    forall k :: 0 <= k <= |line| ==>
      && (Blank(line[..k]) ==> JsonSpace(line[..k]))
      && (decode(line[..k]) != Malformed ==> JsonSpace(line[k..]))
  }

  ghost predicate CleanLog(decode: Decoder, c: Bytes) {
    (forall line <- Lines(c) :: CleanLine(decode, line)) && CleanLine(decode, Tail(c))
  }

  /** A line of a JSON Lines file, or the part of one written so far. */
  ghost predicate JsonLine(decode: Decoder, line: Bytes) {
    exists rest: Bytes :: JsonSpace(line + rest) || decode(line + rest) != Malformed
  }

  lemma HeadOfJsonSpace(a: Bytes, b: Bytes)
    requires JsonSpace(a + b)
    ensures JsonSpace(a) && JsonSpace(b)
  {
    assert forall i :: 0 <= i < |a| ==> a[i] == (a + b)[i];
    assert forall i :: 0 <= i < |b| ==> b[i] == (a + b)[|a| + i];
  }

  /** A file of JSON values, one a line, is a clean log: values are prefix-free (section 4 of RFC 8259). */
  lemma JsonLinesAreClean(decode: Decoder, c: Bytes)
    requires JsonRows(decode)
    requires forall line <- Lines(c) + [Tail(c)] :: JsonLine(decode, line)
    ensures CleanLog(decode, c)
  {
    forall line | line in Lines(c) + [Tail(c)]
      ensures CleanLine(decode, line)
    {
      JsonLineIsClean(decode, line);
    }
    assert forall line <- Lines(c) :: line in Lines(c) + [Tail(c)];
    assert Tail(c) in Lines(c) + [Tail(c)];
  }

  lemma JsonLineIsClean(decode: Decoder, line: Bytes)
    requires JsonRows(decode) && JsonLine(decode, line)
    ensures CleanLine(decode, line)
  {
    var rest :| JsonSpace(line + rest) || decode(line + rest) != Malformed;
    forall k | 0 <= k <= |line|
      ensures Blank(line[..k]) ==> JsonSpace(line[..k])
      ensures decode(line[..k]) != Malformed ==> JsonSpace(line[k..])
    {
      var a, b := line[..k], line[k..];
      assert line + rest == a + (b + rest);
      if JsonSpace(a + (b + rest)) {
        HeadOfJsonSpace(a, b + rest);
        HeadOfJsonSpace(b, rest);
      } else {
        if Blank(a) && !JsonSpace(a) {
          ExoticBlankSpoils(decode, a, b + rest);
        }
        if decode(a) != Malformed {
          HeadOfJsonSpace(b, rest);
        }
      }
    }
  }

  // ------------------------------------------------------------------ the cut theorem

  /** Parsing p, and then everything after its NextOffset, reads every row of p + s once, in order. */
  ghost predicate CutsExactly(decode: Decoder, p: Bytes, s: Bytes) {
    Rows(decode, p + s) == Rows(decode, p) + Rows(decode, (p + s)[NextOffset(decode, p)..])
  }

  /** What is left to read after p is its partial tail, if it has one, and s. */
  lemma RestAfter(decode: Decoder, p: Bytes, s: Bytes)
    ensures (p + s)[NextOffset(decode, p)..] == if PartialTail(decode, p) then Tail(p) + s else s
  {
    TailIsSuffix(p);
  }

  lemma RowsAt(decode: Decoder, p: Bytes)
    ensures Rows(decode, p) == RowsOf(decode, Lines(p)) + RowOf(decode, Tail(p))
  {
  }

  lemma RowsAfter(decode: Decoder, p: Bytes, s: Bytes)
    ensures Rows(decode, p + s) == RowsOf(decode, Lines(p)) + Rows(decode, Tail(p) + s)
  {
    hide *;
    LinesAppend(p, s);
    RowsAt(decode, p + s);
    RowsAt(decode, Tail(p) + s);
    RowsOfAppend(decode, Lines(p), Lines(Tail(p) + s));
    Assoc(RowsOf(decode, Lines(p)), RowsOf(decode, Lines(Tail(p) + s)), RowOf(decode, Tail(p + s)));
  }

  lemma Assoc<T>(a: seq<T>, b: seq<T>, c: seq<T>)
    ensures (a + b) + c == a + (b + c)
  {
  }

  /** An unterminated piece a, and an s that ends no line either. */
  lemma JoinUnterminated(decode: Decoder, a: Bytes, s: Bytes)
    requires LineEnd(a) == |a| && LineEnd(s) == |s|
    ensures Rows(decode, a + s) == RowOf(decode, a + s) && Rows(decode, s) == RowOf(decode, s)
    ensures Tail(a + s) == a + s
  {
    hide RowOf;
    LineEndAppend(a, s);
  }

  lemma FirstLine(decode: Decoder, s: Bytes)
    requires LineEnd(s) < |s|
    ensures var line, rest := s[..LineEnd(s)], s[LineEnd(s) + 1..];
      && Rows(decode, s) == RowOf(decode, line) + Rows(decode, rest)
      && Lines(s) == [line] + Lines(rest)
      && Tail(s) == Tail(rest)
  {
    hide RowOf;
    var line, rest := s[..LineEnd(s)], s[LineEnd(s) + 1..];
    RowsOfAppend(decode, [line], Lines(rest));
    RowsOfOne(decode, line);
    Assoc(RowOf(decode, line), RowsOf(decode, Lines(rest)), RowOf(decode, Tail(rest)));
  }

  /** An unterminated piece a, and an s that ends its line. */
  lemma JoinTerminated(decode: Decoder, a: Bytes, s: Bytes)
    requires LineEnd(a) == |a| && LineEnd(s) < |s|
    ensures var b, rest := s[..LineEnd(s)], s[LineEnd(s) + 1..];
      && Rows(decode, a + s) == RowOf(decode, a + b) + Rows(decode, rest)
      && Rows(decode, s) == RowOf(decode, b) + Rows(decode, rest)
      && Lines(a + s) == [a + b] + Lines(rest)
      && Tail(a + s) == Tail(rest)
  {
    hide *;
    var k := LineEnd(s);
    assert (a + s)[..|a| + k] == a + s[..k];
    assert (a + s)[|a| + k + 1..] == s[k + 1..];
    LineEndAppend(a, s);
    FirstLine(decode, s);
    FirstLine(decode, a + s);
  }

  /** What the first line of s means for the rows, when a precedes it on the same line. */
  lemma RowsJoin(decode: Decoder, a: Bytes, s: Bytes)
    requires LineEnd(a) == |a|
    requires var b := s[..LineEnd(s)]; RowOf(decode, a + b) == RowOf(decode, a) + RowOf(decode, b)
    ensures Rows(decode, a + s) == RowOf(decode, a) + Rows(decode, s)
  {
    hide *;
    if LineEnd(s) == |s| {
      JoinUnterminated(decode, a, s);
      assert s[..LineEnd(s)] == s;
    } else {
      JoinTerminated(decode, a, s);
      Assoc(RowOf(decode, a), RowOf(decode, s[..LineEnd(s)]), Rows(decode, s[LineEnd(s) + 1..]));
    }
  }

  lemma FirstLineIsClean(decode: Decoder, p: Bytes, s: Bytes)
    requires CleanLog(decode, p + s)
    ensures CleanLine(decode, Tail(p) + s[..LineEnd(s)])
  {
    hide CleanLine;
    TailIsSuffix(p);
    LinesAppend(p, s);
    if LineEnd(s) == |s| {
      JoinUnterminated(decode, Tail(p), s);
      assert s[..LineEnd(s)] == s;
    } else {
      JoinTerminated(decode, Tail(p), s);
      assert Lines(Tail(p) + s)[0] in Lines(p + s);
    }
  }

  /** A complete or blank tail consumed at once: what follows it on the line adds nothing, and takes nothing away. */
  lemma UnterminatedLine(decode: Decoder, a: Bytes, b: Bytes)
    requires JsonRows(decode) && CleanLine(decode, a + b)
    requires Blank(a) || decode(a) != Malformed
    ensures RowOf(decode, a + b) == RowOf(decode, a) + RowOf(decode, b)
  {
    RowOfLine(decode, a);
    RowOfLine(decode, b);
    RowOfLine(decode, a + b);
    assert (a + b)[..|a|] == a && (a + b)[|a|..] == b;
    if Blank(a) {
      BlankIsMalformed(decode, a);
      assert JsonSpace(a);
    } else {
      assert JsonSpace(b);
      assert decode(a + b) == decode(a);
      JsonSpaceIsBlank(b);
      BlankIsMalformed(decode, b);
    }
  }

  lemma TailState(decode: Decoder, p: Bytes)
    requires JsonRows(decode)
    ensures PartialTail(decode, p) <==> !Blank(Tail(p)) && decode(Tail(p)) == Malformed
    ensures PartialTail(decode, p) ==> RowOf(decode, Tail(p)) == []
  {
    BlankIgnoresCR(Tail(p));
    DecodeIgnoresCR(decode, Tail(p));
    RowOfLine(decode, Tail(p));
  }

  /**
   * The cut theorem: on a clean log every parse stops at a safe cut, whatever is appended afterwards. It holds
   * for lines ended by CR LF, blank lines and complete rows whose line end is still missing.
   */
  lemma CutTheorem(decode: Decoder, p: Bytes, s: Bytes)
    requires JsonRows(decode) && CleanLog(decode, p + s)
    ensures CutsExactly(decode, p, s)
  {
    hide *;
    if PartialTail(decode, p) {
      UnreadTail(decode, p, s);
    } else {
      var a := Tail(p);
      TailState(decode, p);
      TailIsSuffix(p);
      FirstLineIsClean(decode, p, s);
      UnterminatedLine(decode, a, s[..LineEnd(s)]);
      RowsJoin(decode, a, s);
      ConsumedTail(decode, p, s);
    }
  }

  lemma ConsumedTail(decode: Decoder, p: Bytes, s: Bytes)
    requires !PartialTail(decode, p)
    requires Rows(decode, Tail(p) + s) == RowOf(decode, Tail(p)) + Rows(decode, s)
    ensures CutsExactly(decode, p, s)
  {
    hide RowOf, RowsOf, Tail, Lines, PartialTail;
    RestAfter(decode, p, s);
    RowsAfter(decode, p, s);
    Assoc(RowsOf(decode, Lines(p)), RowOf(decode, Tail(p)), Rows(decode, s));
  }

  /** What is left to read of a clean log is a clean log. */
  lemma RestIsClean(decode: Decoder, p: Bytes, s: Bytes)
    requires JsonRows(decode) && CleanLog(decode, p + s)
    ensures CleanLog(decode, (p + s)[NextOffset(decode, p)..])
  {
    hide CleanLine, PartialTail, RowOf;
    var a := Tail(p);
    RestAfter(decode, p, s);
    LinesAppend(p, s);
    assert CleanLog(decode, a + s) by {
      assert forall line <- Lines(a + s) :: line in Lines(p + s);
    }
    if !PartialTail(decode, p) {
      TailState(decode, p);
      TailIsSuffix(p);
      FirstLineIsClean(decode, p, s);
      CleanRest(decode, a, s[..LineEnd(s)]);
      CleanAfter(decode, a, s);
    }
  }

  /** Part of a clean log is a clean log. */
  lemma CleanPrefix(decode: Decoder, p: Bytes, s: Bytes)
    requires CleanLog(decode, p + s)
    ensures CleanLog(decode, p)
  {
    hide CleanLine;
    LinesAppend(p, s);
    FirstLineIsClean(decode, p, s);
    CleanHead(decode, Tail(p), s[..LineEnd(s)]);
    assert forall line <- Lines(p) :: line in Lines(p + s);
  }

  lemma CleanHead(decode: Decoder, a: Bytes, b: Bytes)
    requires CleanLine(decode, a + b)
    ensures CleanLine(decode, a)
  {
    hide Blank;
    forall k | 0 <= k <= |a|
      ensures Blank(a[..k]) ==> JsonSpace(a[..k])
      ensures decode(a[..k]) != Malformed ==> JsonSpace(a[k..])
    {
      assert a + b == a[..k] + (a[k..] + b);
      CleanAt(decode, a + b, a[..k], a[k..] + b);
      if decode(a[..k]) != Malformed {
        HeadOfJsonSpace(a[k..], b);
      }
    }
  }

  lemma CleanAfter(decode: Decoder, a: Bytes, s: Bytes)
    requires CleanLog(decode, a + s) && LineEnd(a) == |a| && CleanLine(decode, s[..LineEnd(s)])
    ensures CleanLog(decode, s)
  {
    hide CleanLine, RowOf, Lines, Tail, LineEnd, Rows, RowsOf;
    var k := LineEnd(s);
    if k == |s| {
      assert s[..k] == s;
      NoLines(s);
    } else {
      JoinTerminated(decode, a, s);
      FirstLine(decode, s);
      var rest := s[k + 1..];
      assert forall line <- Lines(s) :: line == s[..k] || line in Lines(rest);
      assert forall line <- Lines(rest) :: line in Lines(a + s);
    }
  }

  lemma NoLines(s: Bytes)
    requires LineEnd(s) == |s|
    ensures Lines(s) == [] && Tail(s) == s
  {
  }

  lemma CleanRest(decode: Decoder, a: Bytes, b: Bytes)
    requires JsonRows(decode) && CleanLine(decode, a + b)
    requires Blank(a) || decode(a) != Malformed
    ensures CleanLine(decode, b)
  {
    hide Blank, JsonRows;
    forall k | 0 <= k <= |b|
      ensures Blank(b[..k]) ==> JsonSpace(b[..k])
      ensures decode(b[..k]) != Malformed ==> JsonSpace(b[k..])
    {
      assert b == b[..k] + b[k..];
      CleanRestAt(decode, a, b[..k], b[k..]);
    }
  }

  /** CleanLine, read at one cut. */
  lemma CleanAt(decode: Decoder, line: Bytes, a: Bytes, b: Bytes)
    requires CleanLine(decode, line) && line == a + b
    ensures Blank(a) ==> JsonSpace(a)
    ensures decode(a) != Malformed ==> JsonSpace(b)
  {
    assert line[..|a|] == a && line[|a|..] == b;
  }

  lemma SpaceInFront(decode: Decoder, w: Bytes, x: Bytes)
    requires JsonRows(decode) && JsonSpace(w)
    ensures decode(w + x) == decode(x)
  {
  }

  lemma CleanRestAt(decode: Decoder, a: Bytes, x: Bytes, y: Bytes)
    requires JsonRows(decode) && CleanLine(decode, a + (x + y))
    requires Blank(a) || decode(a) != Malformed
    ensures Blank(x) ==> JsonSpace(x)
    ensures decode(x) != Malformed ==> JsonSpace(y)
  {
    hide Blank, CleanLine, JsonRows;
    Assoc(a, x, y);
    CleanAt(decode, a + (x + y), a, x + y);
    CleanAt(decode, (a + x) + y, a + x, y);
    if Blank(a) {
      SpaceInFront(decode, a, x);
      if Blank(x) {
        SpaceThenBlank(a, x);
        HeadOfJsonSpace(a, x);
      }
    } else {
      HeadOfJsonSpace(x, y);
    }
  }

  lemma {:induction false} SpaceThenBlank(w: Bytes, x: Bytes)
    requires JsonSpace(w) && Blank(x)
    ensures Blank(w + x)
  {
    if w == [] {
      assert w + x == x;
    } else {
      SpaceThenBlank(w[1..], x);
      assert (w + x)[1..] == w[1..] + x;
      assert SpaceRune(w + x) == 1;
    }
  }

  /** The same for the events two calls return, when no two rows of the log share a key. */
  lemma CutTheoremForEvents(decode: Decoder, p: Bytes, s: Bytes)
    requires JsonRows(decode) && CleanLog(decode, p + s)
    requires var rows := Rows(decode, p + s);
      forall i, j :: 0 <= i < j < |rows| ==> rows[i].key != rows[j].key
    ensures Events(decode, p + s)
         == Events(decode, p) + Events(decode, (p + s)[NextOffset(decode, p)..])
  {
    CutTheorem(decode, p, s);
    DistinctParts(Rows(decode, p), Rows(decode, (p + s)[NextOffset(decode, p)..]));
  }

  lemma DistinctParts(x: seq<Row>, y: seq<Row>)
    requires forall i, j :: 0 <= i < j < |x + y| ==> (x + y)[i].key != (x + y)[j].key
    ensures EventsOf(Dedup({}, x + y)) == EventsOf(Dedup({}, x)) + EventsOf(Dedup({}, y))
  {
    hide Dedup;
    assert forall i :: 0 <= i < |x| ==> x[i] == (x + y)[i];
    assert forall i :: 0 <= i < |y| ==> y[i] == (x + y)[|x| + i];
    DistinctIsKept({}, x + y);
    DistinctIsKept({}, x);
    DistinctIsKept({}, y);
  }

  lemma {:induction false} DistinctIsKept(seen: set<string>, rows: seq<Row>)
    requires forall i, j :: 0 <= i < j < |rows| ==> rows[i].key != rows[j].key
    requires forall i :: 0 <= i < |rows| ==> rows[i].key !in seen
    ensures Dedup(seen, rows) == rows
    decreases |rows|
  {
    if rows != [] {
      DistinctIsKept(seen + {rows[0].key}, rows[1..]);
    }
  }

  /**
   * Without the log being clean, the cut is exact for every continuation if and only if the tail is JSON white
   * space or is left unread. A complete row still waiting for its line end is the risk, and so is a tail of
   * white space that JSON does not know, such as a vertical tab.
   */
  lemma CutIsAlwaysExactIff(decode: Decoder, p: Bytes, row: Bytes)
    requires JsonRows(decode)
    requires LF !in row && decode(row).Usable?
    ensures (forall s: Bytes :: CutsExactly(decode, p, s)) <==> JsonSpace(Tail(p)) || PartialTail(decode, p)
  {
    hide CutsExactly, PartialTail, Tail;
    var a := Tail(p);
    if JsonSpace(a) || PartialTail(decode, p) {
      forall s: Bytes
        ensures CutsExactly(decode, p, s)
      {
        HarmlessTail(decode, p, s);
      }
    } else {
      LostRow(decode, p, row);
    }
  }

  lemma HarmlessTail(decode: Decoder, p: Bytes, s: Bytes)
    requires JsonRows(decode)
    requires JsonSpace(Tail(p)) || PartialTail(decode, p)
    ensures CutsExactly(decode, p, s)
  {
    hide *;
    if PartialTail(decode, p) {
      UnreadTail(decode, p, s);
    } else {
      TailIsSuffix(p);
      WhiteSpaceTail(decode, Tail(p), s);
      ConsumedTail(decode, p, s);
    }
  }

  lemma UnreadTail(decode: Decoder, p: Bytes, s: Bytes)
    requires JsonRows(decode) && PartialTail(decode, p)
    ensures CutsExactly(decode, p, s)
  {
    hide *;
    TailState(decode, p);
    RestAfter(decode, p, s);
    RowsAfter(decode, p, s);
    RowsAt(decode, p);
    CutsWhere(decode, p, s, Tail(p) + s);
  }

  lemma CutsWhere(decode: Decoder, p: Bytes, s: Bytes, rest: Bytes)
    requires (p + s)[NextOffset(decode, p)..] == rest
    requires Rows(decode, p + s) == Rows(decode, p) + Rows(decode, rest)
    ensures CutsExactly(decode, p, s)
  {
    hide Rows, NextOffset;
  }

  lemma WhiteSpaceTail(decode: Decoder, a: Bytes, s: Bytes)
    requires JsonRows(decode) && JsonSpace(a) && LineEnd(a) == |a|
    ensures RowOf(decode, a) == [] && Rows(decode, a + s) == Rows(decode, s)
  {
    var b := s[..LineEnd(s)];
    JsonSpaceIsBlank(a);
    BlankIsMalformed(decode, a);
    RowOfLine(decode, a);
    RowOfLine(decode, b);
    RowOfLine(decode, a + b);
    RowsJoin(decode, a, s);
  }

  /** A whole row written right behind the tail is read by the second parse and lost to a single one. */
  lemma LostRow(decode: Decoder, p: Bytes, row: Bytes)
    requires JsonRows(decode)
    requires LF !in row && decode(row).Usable?
    requires !JsonSpace(Tail(p)) && !PartialTail(decode, p)
    ensures |Rows(decode, p + row)| < |Rows(decode, p) + Rows(decode, (p + row)[NextOffset(decode, p)..])|
    ensures !CutsExactly(decode, p, row)
  {
    var a := Tail(p);
    TailState(decode, p);
    RestAfter(decode, p, row);
    RowsAfter(decode, p, row);
    TailIsSuffix(p);
    NoLineEnd(row);
    JoinUnterminated(decode, a, row);
    RowOfLine(decode, row);
    RowOfLine(decode, a + row);
    if Blank(a) {
      ExoticBlankSpoils(decode, a, row);
    } else if decode(a + row) != Malformed {
      JsonSpaceIsBlank(row);
      BlankIsMalformed(decode, row);
    }
  }
}
