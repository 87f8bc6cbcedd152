/** A small decoder and log that meet all that is assumed of them: the assumptions do not contradict each other. */
module ClaudeSample {
  import opened Bytes
  import opened ClaudeCut
  import opened ClaudeLog
  import opened Domain
  import opened ExactlyOnce
  import opened ExactlyOnceIff
  import opened Normalizer
  import NT = NormalizerTheorems
  import Text

  const OPEN: byte := 0x7B
  const CLOSE: byte := 0x7D

  /** The number of white-space bytes at the front. */
  function Lead(s: Bytes): (n: nat)
    ensures n <= |s| && JsonSpace(s[..n]) && (n < |s| ==> !IsJsonSpace(s[n]))
  {
    if s == [] || !IsJsonSpace(s[0]) then 0 else Lead(s[1..]) + 1
  }

  const SAMPLE := SessionEvent("e", "r", "s", SECOND, CliSession, "c", UnknownMode, "p", "a", None, NO_TOKENS, NO_COSTS,
                               map[])

  /** One message of a request, the same message at another time, and another message of the request. */
  function RowFor(b: byte): Row {
    if b == 0x61 then Row("message_request:m:r", SAMPLE)
    else if b == 0x62 then Row("message_request:m:r", SAMPLE.(entryId := "f", occurredAt := 2 * SECOND))
    else Row("message_request:n:r", SAMPLE.(entryId := "g"))
  }

  predicate IsObject(x: Bytes) {
    var k := Lead(x);
    k + 3 <= |x| && x[k] == OPEN && x[k + 2] == CLOSE && JsonSpace(x[k + 3..])
  }

  /** Decodes an object of one byte between braces, with white space around it. */
  function Decode(x: Bytes): Verdict {
    if IsObject(x) then Usable(RowFor(x[Lead(x) + 1])) else Malformed
  }

  lemma {:induction false} LeadStays(x: Bytes, y: Bytes)
    requires Lead(x) < |x|
    ensures Lead(x + y) == Lead(x)
  {
    if IsJsonSpace(x[0]) {
      assert (x + y)[1..] == x[1..] + y;
      LeadStays(x[1..], y);
    }
  }

  lemma {:induction false} LeadSkips(w: Bytes, x: Bytes)
    requires JsonSpace(w)
    ensures Lead(w + x) == |w| + Lead(x)
  {
    if w == [] {
      assert w + x == x;
    } else {
      assert (w + x)[1..] == w[1..] + x;
      LeadSkips(w[1..], x);
    }
  }

  lemma SpaceBefore(w: Bytes, x: Bytes)
    requires JsonSpace(w)
    ensures Decode(w + x) == Decode(x)
  {
    LeadSkips(w, x);
    var k := Lead(x);
    if k + 3 <= |x| {
      assert (w + x)[|w| + k + 3..] == x[k + 3..];
    }
  }

  lemma SpaceAfter(x: Bytes, w: Bytes)
    requires JsonSpace(w)
    ensures Decode(x + w) == Decode(x)
  {
    var k := Lead(x);
    if k == |x| {
      LeadSkips(x, w);
      LeadSkips(w, []);
      assert w + [] == w && Lead([]) == 0;
    } else {
      LeadStays(x, w);
      if k + 3 <= |x| {
        assert (x + w)[k + 3..] == x[k + 3..] + w;
        if JsonSpace(x[k + 3..] + w) {
          HeadOfJsonSpace(x[k + 3..], w);
        }
      } else {
        assert k + 3 <= |x + w| ==> (x + w)[k + 2] in w;
      }
    }
  }

  lemma NothingAfter(x: Bytes, y: Bytes)
    requires IsObject(x) && IsObject(x + y)
    ensures JsonSpace(y)
  {
    LeadStays(x, y);
    var k := Lead(x);
    assert (x + y)[k + 3..] == x[k + 3..] + y;
    HeadOfJsonSpace(x[k + 3..], y);
  }

  /** The decoder meets the facts that are assumed of the JSON decoder. */
  lemma SampleDecoder()
    ensures JsonRows(Decode)
  {
    forall w: Bytes, x: Bytes | JsonSpace(w)
      ensures Decode(w + x) == Decode(x) && Decode(x + w) == Decode(x)
    {
      SpaceBefore(w, x);
      SpaceAfter(x, w);
    }
    forall x: Bytes, y: Bytes | Decode(x) != Malformed && Decode(x + y) != Malformed
      ensures JsonSpace(y)
    {
      NothingAfter(x, y);
    }
    hide Decode;
    forall x: Bytes
      ensures Decode(x) != Malformed ==> |x| >= 2 && (IsJsonSpace(x[0]) || x[0] == OPEN)
    {
      FirstByte(x);
    }
  }

  lemma FirstByte(x: Bytes)
    ensures Decode(x) != Malformed ==> |x| >= 2 && (IsJsonSpace(x[0]) || x[0] == OPEN)
  {
  }

  const FIRST: Bytes := [OPEN, 0x61, CLOSE]
  const SECOND_ROW: Bytes := [OPEN, 0x62, CLOSE]
  const THIRD_ROW: Bytes := [OPEN, 0x63, CLOSE]

  /** A log of one row and the beginning of another meets what the run theorem assumes. */
  lemma SampleLog()
    ensures Rows(Decode, FIRST + [LF] + [OPEN]) == [RowFor(0x61)]
    ensures GoodLog(Log("path", Decode), FIRST + [LF] + [OPEN])
  {
    hide *;
    SampleVerdicts();
    RowOfSample([OPEN]);
    SampleRows([OPEN]);
    SampleIsIdentified(0x61);
    OneRowAgrees();
    assert [RowFor(0x61)] + [] == [RowFor(0x61)];
    Good(FIRST + [LF] + [OPEN]);
  }

  /** A log with two rows of one key and different times is readable, and some run stores both. */
  lemma SampleStoredTwice()
    ensures Rows(Decode, FIRST + [LF] + SECOND_ROW) == [RowFor(0x61), RowFor(0x62)]
    ensures !AlwaysExact(Log("path", Decode), FIRST + [LF] + SECOND_ROW)
  {
    hide *;
    SampleVerdicts();
    RowOfSample(SECOND_ROW);
    SampleRows(SECOND_ROW);
    assert [RowFor(0x61)] + [RowFor(0x62)] == [RowFor(0x61), RowFor(0x62)];
    SampleIsReadable(FIRST + [LF] + SECOND_ROW, 0x62);
    OneKeyDisagrees();
    ExactlyOnceIff.ExactlyOnceIff(Log("path", Decode), FIRST + [LF] + SECOND_ROW);
  }

  /** So is a log with two messages of one request, and some run never stores the second of them. */
  lemma SampleLost()
    ensures Rows(Decode, FIRST + [LF] + THIRD_ROW) == [RowFor(0x61), RowFor(0x63)]
    ensures RowFor(0x61).key != RowFor(0x63).key && Marker(RowFor(0x61)) == Marker(RowFor(0x63))
    ensures !AlwaysExact(Log("path", Decode), FIRST + [LF] + THIRD_ROW)
  {
    hide *;
    SampleVerdicts();
    RowOfSample(THIRD_ROW);
    SampleRows(THIRD_ROW);
    assert [RowFor(0x61)] + [RowFor(0x63)] == [RowFor(0x61), RowFor(0x63)];
    SampleIsReadable(FIRST + [LF] + THIRD_ROW, 0x63);
    OneMarkerDisagrees();
    ExactlyOnceIff.ExactlyOnceIff(Log("path", Decode), FIRST + [LF] + THIRD_ROW);
  }

  lemma SampleIsReadable(log: Bytes, b: byte)
    requires JsonRows(Decode) && CleanLog(Decode, log) && Rows(Decode, log) == [RowFor(0x61), RowFor(b)]
    ensures Readable(Log("path", Decode), log)
  {
    hide *;
    SampleIsIdentified(b);
    RowIsAccepted(0x61);
    RowIsAccepted(b);
    PairIsAccepted(RowFor(0x61), RowFor(b));
    IsReadable(log);
  }

  /** The rows of the first line and a last one, and that such a log is clean. */
  lemma SampleRows(tail: Bytes)
    requires tail in {[OPEN], SECOND_ROW, THIRD_ROW}
    ensures Rows(Decode, FIRST + [LF] + tail) == [RowFor(0x61)] + RowOf(Decode, tail)
    ensures JsonRows(Decode) && CleanLog(Decode, FIRST + [LF] + tail)
  {
    hide *;
    SampleDecoder();
    SampleVerdicts();
    SampleLines(tail);
    RowOfSample(FIRST);
    var log := FIRST + [LF] + tail;
    RowsAre(log, tail);
    CanBeCompleted(FIRST, []);
    if tail == [OPEN] {
      CanBeCompleted([OPEN], [0x61, CLOSE]);
    } else {
      CanBeCompleted(tail, []);
    }
    JsonLinesAreClean(Decode, log);
  }

  lemma RowsAre(log: Bytes, tail: Bytes)
    requires Lines(log) == [FIRST] && Tail(log) == tail && RowOf(Decode, FIRST) == [RowFor(0x61)]
    ensures Rows(Decode, log) == [RowFor(0x61)] + RowOf(Decode, tail)
  {
    hide RowOf, RowFor;
    assert RowsOf(Decode, []) == [];
    assert [FIRST][1..] == [];
  }

  lemma RowOfSample(line: Bytes)
    ensures RowOf(Decode, line) == match Decode(line) { case Usable(row) => [row] case _ => [] }
  {
    SampleDecoder();
    hide Decode;
    RowOfLine(Decode, line);
  }

  lemma CanBeCompleted(line: Bytes, rest: Bytes)
    requires Decode(line + rest) != Malformed
    ensures JsonLine(Decode, line)
  {
  }

  lemma Good(log: Bytes)
    requires JsonRows(Decode) && CleanLog(Decode, log) && Faithful(Rows(Decode, log))
    ensures GoodLog(Log("path", Decode), log)
  {
  }

  lemma IsReadable(log: Bytes)
    requires JsonRows(Decode) && CleanLog(Decode, log)
    requires Identified(Rows(Decode, log)) && AllAccepted(Rows(Decode, log))
    ensures Readable(Log("path", Decode), log)
  {
  }

  lemma SampleLines(tail: Bytes)
    requires tail in {[OPEN], SECOND_ROW, THIRD_ROW}
    ensures Lines(FIRST + [LF] + tail) == [FIRST] && Tail(FIRST + [LF] + tail) == tail
  {
    OneLine(FIRST);
    OneLine(tail);
    LinesAppend(FIRST + [LF], tail);
    assert [] + tail == tail;
  }

  lemma SampleVerdicts()
    ensures Decode(FIRST) == Usable(RowFor(0x61)) && Decode(SECOND_ROW) == Usable(RowFor(0x62))
    ensures Decode(THIRD_ROW) == Usable(RowFor(0x63)) && Decode([OPEN]) == Malformed
    ensures FIRST + [] == FIRST == [OPEN] + [0x61, CLOSE]
    ensures SECOND_ROW + [] == SECOND_ROW && THIRD_ROW + [] == THIRD_ROW
  {
  }

  lemma VisibleLetters()
    ensures Text.Trim("r") == "r" && Text.Trim("p") == "p" && Text.Trim("a") == "a" && Text.Trim("s") == "s"
    ensures Text.Trim("e") == "e" && Text.Trim("f") == "f" && Text.Trim("g") == "g" && NewProviderName("c").Ok?
  {
    assert Text.Trim("c") == "c" && Lower("c") == "c";
  }

  lemma SampleIsIdentified(b: byte)
    ensures Identified([RowFor(0x61), RowFor(b)]) && Identified([RowFor(0x61)])
  {
    VisibleLetters();
    hide Text.Trim;
  }

  lemma PairIsAccepted(a: Row, b: Row)
    requires NormalizeIncoming(a.event).Ok? && a.event.tokens.Valid() && a.event.costs.Valid()
    requires NormalizeIncoming(b.event).Ok? && b.event.tokens.Valid() && b.event.costs.Valid()
    ensures AllAccepted([a, b])
  {
    hide NormalizeIncoming, Tokens.Valid, Costs.Valid;
  }

  lemma RowIsAccepted(b: byte)
    ensures var e := RowFor(b).event;
      NormalizeIncoming(e).Ok? && e.tokens.Valid() && e.costs.Valid()
  {
    VisibleLetters();
    hide Text.Trim, NormalizeIncoming, NewProviderName;
    NT.AcceptedEvents(RowFor(b).event);
  }

  lemma OneRowAgrees()
    requires Identified([RowFor(0x61)])
    ensures Faithful([RowFor(0x61)])
  {
    hide Identified;
  }

  lemma OneKeyDisagrees()
    ensures !Unambiguous([RowFor(0x61), RowFor(0x62)])
  {
    hide Text.Trim;
    var a, b := RowFor(0x61), RowFor(0x62);
    assert a.key == b.key && Own(a).occurredAt != Own(b).occurredAt;
    assert a in [a, b] && b in [a, b];
    assert !Agree(a, b);
  }

  lemma OneMarkerDisagrees()
    ensures RowFor(0x61).key != RowFor(0x63).key && Marker(RowFor(0x61)) == Marker(RowFor(0x63))
    ensures !Unambiguous([RowFor(0x61), RowFor(0x63)])
  {
    VisibleLetters();
    hide Text.Trim;
    var a, b := RowFor(0x61), RowFor(0x63);
    assert a.key[16] != b.key[16];
    assert a in [a, b] && b in [a, b];
    assert !Agree(a, b);
  }
}
