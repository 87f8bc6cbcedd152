/** The Claude Code log parser: a byte loop over a JSON Lines file that is still being written. */
module ClaudeLog {
  import opened Bytes
  import opened Domain

  // ------------------------------------------------------------------ the decoder and what is known of it

  /** A decoded usage row: the event, and the key it is de-duplicated by. */
  datatype Row = Row(key: string, event: SessionEvent)

  /** What decoding one line yields: a JSON error, a row without usable usage fields, or a usage row. */
  datatype Verdict = Malformed | Unusable | Usable(row: Row)

  type Decoder = Bytes -> Verdict

  /**
   * The facts used about the JSON decoder (RFC 8259). White space around a value means nothing (section 2);
   * a value followed by more than white space is an error, so values are prefix-free (section 4); what decodes
   * into a record is an object or null, so it has two bytes at least.
   */
  ghost predicate JsonRows(decode: Decoder) {
    && (forall w: Bytes, x: Bytes :: JsonSpace(w) ==> decode(w + x) == decode(x))
    && (forall x: Bytes, w: Bytes :: JsonSpace(w) ==> decode(x + w) == decode(x))
    && (forall x: Bytes, y: Bytes :: decode(x) != Malformed && decode(x + y) != Malformed ==> JsonSpace(y))
    && (forall x: Bytes :: decode(x) != Malformed ==> |x| >= 2 && (IsJsonSpace(x[0]) || x[0] == 0x7B || x[0] == 0x6E))
  }

  datatype Disposition = Accepted(row: Row) | Skipped | Partial

  function ParseLine(decode: Decoder, line: Bytes, allowPartial: bool): Disposition {
    match decode(line)
    case Malformed => if allowPartial then Partial else Skipped
    case Unusable => Skipped
    case Usable(row) => Accepted(row)
  }

  // ------------------------------------------------------------------ specification

  /** The row a line contributes, if any. */
  function RowOf(decode: Decoder, line: Bytes): seq<Row> {
    if Blank(TrimCR(line)) then []
    else match ParseLine(decode, TrimCR(line), false)
      case Accepted(row) => [row]
      case _ => []
  }

  function RowsOf(decode: Decoder, lines: seq<Bytes>): seq<Row> {
    if lines == [] then [] else RowOf(decode, lines[0]) + RowsOf(decode, lines[1..])
  }

  /** Every row of a file, the unterminated last line included. */
  function Rows(decode: Decoder, c: Bytes): seq<Row> {
    RowsOf(decode, Lines(c)) + RowOf(decode, Tail(c))
  }

  /** The last line is unterminated and does not decode: it is not consumed. */
  predicate PartialTail(decode: Decoder, c: Bytes) {
    !Blank(TrimCR(Tail(c))) && decode(TrimCR(Tail(c))) == Malformed
  }

  function NextOffset(decode: Decoder, c: Bytes): (n: nat)
    ensures n <= |c|
  {
    if PartialTail(decode, c) then |c| - |Tail(c)| else |c|
  }

  function Keys(rows: seq<Row>): set<string> {
    set r <- rows :: r.key
  }

  /** Drops a row whose key was seen before it. */
  function Dedup(seen: set<string>, rows: seq<Row>): seq<Row>
    decreases |rows|
  {
    if rows == [] then []
    else if rows[0].key in seen then Dedup(seen, rows[1..])
    else [rows[0]] + Dedup(seen + {rows[0].key}, rows[1..])
  }

  function EventsOf(rows: seq<Row>): (es: seq<SessionEvent>)
    ensures |es| == |rows|
    ensures forall i :: 0 <= i < |rows| ==> es[i] == rows[i].event
  {
    seq(|rows|, i requires 0 <= i < |rows| => rows[i].event)
  }

  /** The events one call of the parser returns. */
  function Events(decode: Decoder, c: Bytes): seq<SessionEvent> {
    EventsOf(Dedup({}, Rows(decode, c)))
  }

  // ------------------------------------------------------------------ the parser

  function EffectiveStart(content: Bytes, startOffset: int): (n: nat)
    ensures n <= |content|
  {
    if startOffset < 0 || startOffset > |content| then 0 else startOffset
  }

  /** Where the scan stands: everything before lineStart is read, and no line ends between there and idx. */
  ghost predicate Scanned(decode: Decoder, content: Bytes, start: nat, lineStart: int, idx: int, all: seq<Row>,
                          events: seq<SessionEvent>, seen: set<string>)
  {
    && start <= lineStart <= idx <= |content|
    && LF !in content[lineStart..idx]
    && Tail(content[start..lineStart]) == []
    && all == RowsOf(decode, Lines(content[start..lineStart]))
    && events == EventsOf(Dedup({}, all))
    && seen == Keys(all)
  }

  method Parse(decode: Decoder, content: Bytes, startOffset: int)
    returns (events: seq<SessionEvent>, nextOffset: int)
    ensures var start := EffectiveStart(content, startOffset);
      && events == Events(decode, content[start..])
      && nextOffset == start + NextOffset(decode, content[start..])
  {
    hide Blank, TrimCR, Scanned, RowOf, Events, NextOffset;
    var start := startOffset;
    if start < 0 {
      start := 0;
    }
    if start > |content| {
      start := 0;
    }
    events, nextOffset := [], |content|;
    var seen: set<string> := {};
    var lineStart := start;
    ghost var all: seq<Row> := [];   // the rows read so far
    ScanStart(decode, content, start);

    for idx := start to |content|
      invariant start <= lineStart <= idx
      invariant Scanned(decode, content, start, lineStart, idx, all, events, seen)
      invariant nextOffset == |content|
    {
      if content[idx] != LF {
        ScanByte(decode, content, start, lineStart, idx, all, events, seen);
        continue;
      }
      ScanLine(decode, content, start, lineStart, idx, all, events, seen);
      all := all + RowOf(decode, content[lineStart..idx]);
      var line := TrimCR(content[lineStart..idx]);
      lineStart := idx + 1;
      ghost var events', seen' := events + Fresh(decode, seen, line), seen + FreshKeys(decode, line);
      if !Blank(line) {
        match ParseLine(decode, line, false) {
          case Accepted(row) =>
            if row.key !in seen {
              seen := seen + {row.key};
              events := events + [row.event];
            }
          case Skipped =>
          case Partial =>
            assert false;
        }
      }
      assert events == events' && seen == seen';
    }

    ScanTail(decode, content, start, lineStart, all, events, seen);
    EmptyLine(content, lineStart);
    if lineStart < |content| {
      var tail := TrimCR(content[lineStart..]);
      if !Blank(tail) {
        match ParseLine(decode, tail, true) {
          case Accepted(row) =>
            if row.key !in seen {
              events := events + [row.event];
            }
          case Skipped =>
          case Partial =>
            nextOffset := lineStart;
        }
      }
    }
  }

  /** The event a line adds, after de-duplication. */
  function Fresh(decode: Decoder, seen: set<string>, line: Bytes): seq<SessionEvent> {
    if Blank(line) then []
    else match decode(line)
      case Usable(row) => if row.key in seen then [] else [row.event]
      case _ => []
  }

  function FreshKeys(decode: Decoder, line: Bytes): set<string> {
    if Blank(line) then {}
    else match decode(line)
      case Usable(row) => {row.key}
      case _ => {}
  }

  lemma ScanStart(decode: Decoder, content: Bytes, start: nat)
    requires start <= |content|
    ensures Scanned(decode, content, start, start, start, [], [], {})
  {
  }

  lemma EmptyLine(content: Bytes, lineStart: int)
    requires 0 <= lineStart <= |content|
    ensures lineStart == |content| ==> Blank(TrimCR(content[lineStart..]))
  {
  }

  lemma ScanByte(decode: Decoder, content: Bytes, start: nat, lineStart: int, idx: int, all: seq<Row>,
                 events: seq<SessionEvent>, seen: set<string>)
    requires Scanned(decode, content, start, lineStart, idx, all, events, seen)
    requires idx < |content| && content[idx] != LF
    ensures Scanned(decode, content, start, lineStart, idx + 1, all, events, seen)
  {
    Slices(content, start, lineStart, idx);
  }

  lemma ScanLine(decode: Decoder, content: Bytes, start: nat, lineStart: int, idx: int, all: seq<Row>,
                 events: seq<SessionEvent>, seen: set<string>)
    requires Scanned(decode, content, start, lineStart, idx, all, events, seen)
    requires idx < |content| && content[idx] == LF
    ensures var raw := content[lineStart..idx];
      Scanned(decode, content, start, idx + 1, idx + 1, all + RowOf(decode, raw),
              events + Fresh(decode, seen, TrimCR(raw)), seen + FreshKeys(decode, TrimCR(raw)))
  {
    var before, raw := content[start..lineStart], content[lineStart..idx];
    Slices(content, start, lineStart, idx);
    LineRead(decode, before, raw);
    DedupOne(all, RowOf(decode, raw));
  }

  lemma ScanTail(decode: Decoder, content: Bytes, start: nat, lineStart: int, all: seq<Row>,
                 events: seq<SessionEvent>, seen: set<string>)
    requires Scanned(decode, content, start, lineStart, |content|, all, events, seen)
    ensures var line := TrimCR(content[lineStart..]);
      && NextOffset(decode, content[start..])
         == (if !Blank(line) && decode(line) == Malformed then lineStart else |content|) - start
      && Events(decode, content[start..]) == events + Fresh(decode, seen, line)
  {
    var before, raw := content[start..lineStart], content[lineStart..];
    Slices(content, start, lineStart, |content|);
    TailRead(decode, before, raw);
    DedupOne(all, RowOf(decode, raw));
  }

  /** Reading one more terminated line. */
  lemma LineRead(decode: Decoder, before: Bytes, raw: Bytes)
    requires Tail(before) == [] && LF !in raw
    ensures Tail(before + (raw + [LF])) == []
    ensures RowsOf(decode, Lines(before + (raw + [LF]))) == RowsOf(decode, Lines(before)) + RowOf(decode, raw)
  {
    LineEnded(before, raw);
    RowsOfAppend(decode, Lines(before), [raw]);
    RowsOfOne(decode, raw);
  }

  lemma RowsOfOne(decode: Decoder, line: Bytes)
    ensures RowsOf(decode, [line]) == RowOf(decode, line)
  {
    assert [line][1..] == [];
  }

  /** Reading the unterminated rest. */
  lemma TailRead(decode: Decoder, before: Bytes, raw: Bytes)
    requires Tail(before) == [] && LF !in raw
    ensures Tail(before + raw) == raw
    ensures Rows(decode, before + raw) == RowsOf(decode, Lines(before)) + RowOf(decode, raw)
  {
    LineEnded(before, raw);
  }

  lemma DedupOne(all: seq<Row>, rows: seq<Row>)
    requires |rows| <= 1
    ensures Keys(all + rows) == Keys(all) + Keys(rows)
    ensures EventsOf(Dedup({}, all + rows))
         == EventsOf(Dedup({}, all)) + if rows == [] || rows[0].key in Keys(all) then [] else [rows[0].event]
    ensures rows == [] ==> Keys(rows) == {}
    ensures rows != [] ==> Keys(rows) == {rows[0].key}
  {
    DedupAppend({}, all, rows);
    KeysAppend(all, rows);
    assert {} + Keys(all) == Keys(all);
  }

  lemma {:induction false} RowsOfAppend(decode: Decoder, a: seq<Bytes>, b: seq<Bytes>)
    ensures RowsOf(decode, a + b) == RowsOf(decode, a) + RowsOf(decode, b)
  {
    hide RowOf;
    if a == [] {
      assert a + b == b;
    } else {
      assert (a + b)[1..] == a[1..] + b;
      RowsOfAppend(decode, a[1..], b);
    }
  }

  lemma KeysAppend(a: seq<Row>, b: seq<Row>)
    ensures Keys(a + b) == Keys(a) + Keys(b)
  {
  }

  lemma {:induction false} DedupAppend(seen: set<string>, a: seq<Row>, b: seq<Row>)
    ensures Dedup(seen, a + b) == Dedup(seen, a) + Dedup(seen + Keys(a), b)
    decreases |a|
  {
    hide *;
    if a == [] {
      DedupNothing(seen, b);
      assert a + b == b;
    } else {
      DedupHead(seen, a);
      DedupHead(seen, a + b);
      DedupAppend(if a[0].key in seen then seen else seen + {a[0].key}, a[1..], b);
      assert (a + b)[1..] == a[1..] + b;
      KeysOfHead(seen, a);
    }
  }

  lemma DedupNothing(seen: set<string>, b: seq<Row>)
    ensures Dedup(seen, []) + Dedup(seen + Keys([]), b) == Dedup(seen, b)
  {
    assert seen + Keys([]) == seen;
  }

  lemma DedupHead(seen: set<string>, rows: seq<Row>)
    requires rows != []
    ensures Dedup(seen, rows) == if rows[0].key in seen then Dedup(seen, rows[1..])
                                 else [rows[0]] + Dedup(seen + {rows[0].key}, rows[1..])
  {
  }

  lemma KeysOfHead(seen: set<string>, a: seq<Row>)
    requires a != []
    ensures (if a[0].key in seen then seen else seen + {a[0].key}) + Keys(a[1..]) == seen + Keys(a)
  {
    KeysAppend([a[0]], a[1..]);
    assert [a[0]] + a[1..] == a && Keys([a[0]]) == {a[0].key};
  }
}
