/** The diagnostics log: entries in memory, and two log files of bounded size. */
module Diagnostics {
  import opened Prelude
  import opened Redaction
  import opened Numerals
  import opened Words

  const ENTRY_LIMIT: nat := 1200
  const LOG_LIMIT: nat := 5 * 1024 * 1024
  const AREA_CHARS: nat := 48
  const EVENT_CHARS: nat := 72
  const DETAIL_BYTES: nat := 480

  const NEWLINE: Byte := 10

  datatype Entry = Entry(at: nat, area: string, event: string, detail: string)

  // ---- Text as bytes ----

  function CharUtf8(c: char): (bytes: Bytes)
    ensures |bytes| == CharBytes(c)
    ensures NEWLINE in bytes <==> c == '\n'
  {
    var n := c as int;
    if n < 0x80 then [n as Byte]
    else if n < 0x800 then [(0xC0 + n / 64) as Byte, (0x80 + n % 64) as Byte]
    else if n < 0x1_0000 then [(0xE0 + n / 4096) as Byte, (0x80 + n / 64 % 64) as Byte, (0x80 + n % 64) as Byte]
    else
      [(0xF0 + n / 262144) as Byte, (0x80 + n / 4096 % 64) as Byte, (0x80 + n / 64 % 64) as Byte,
       (0x80 + n % 64) as Byte]
  }

  function Utf8(s: string): (bytes: Bytes)
    ensures |bytes| == ByteLen(s)
    ensures NEWLINE in bytes <==> '\n' in s
  {
    if s == "" then [] else CharUtf8(s[0]) + Utf8(s[1..])
  }

  lemma {:induction false} Utf8Concat(a: string, b: string)
    ensures Utf8(a + b) == Utf8(a) + Utf8(b)
  {
    if a == "" {
      assert a + b == b;
    } else {
      assert (a + b)[1..] == a[1..] + b;
      Utf8Concat(a[1..], b);
    }
  }

  // ---- Lines ----

  // Empty, or ending with a newline.
  predicate Lined(bytes: Bytes) {
    bytes == [] || bytes[|bytes| - 1] == NEWLINE
  }

  // `tail` ends `whole`, and what comes before it is whole lines.
  ghost predicate LineTail(tail: Bytes, whole: Bytes) {
    exists head :: whole == head + tail && Lined(head)
  }

  // Without the first line, and without everything if there is no line end.
  function SkipLine(bytes: Bytes): (rest: Bytes)
    ensures |rest| <= |bytes|
  {
    if bytes == [] then [] else if bytes[0] == NEWLINE then bytes[1..] else SkipLine(bytes[1..])
  }

  // ---- The two files ----

  datatype Logs = Logs(previous: Option<Bytes>, current: Option<Bytes>)

  function Content(file: Option<Bytes>): Bytes {
    if file.Some? then file.value else []
  }

  function All(logs: Logs): Bytes {
    Content(logs.previous) + Content(logs.current)
  }

  predicate WithinLimits(logs: Logs) {
    |Content(logs.previous)| <= LOG_LIMIT && |Content(logs.current)| <= LOG_LIMIT
  }

  // How the file operations of one record go: measuring the current log, removing the old one,
  // moving or opening the current one, how many bytes of an oversized one are copied, emptying
  // it, and how many bytes of the line reach the file.
  datatype Io = Io(measures: bool, removes: bool, moves: bool, copied: nat, empties: bool, written: nat)

  // `rotate_log`; a failure leaves what it got to.
  function Rotated(logs: Logs, incoming: nat, io: Io): (Logs, bool) {
    if logs.current.None? then (logs, true)
    else if !io.measures then (logs, false)
    else
      var size := |logs.current.value|;
      if SaturatingAdd(size, incoming) <= LOG_LIMIT then (logs, true)
      else if !io.removes && logs.previous.Some? then (logs, false)
      else if !io.moves then (Logs(None, logs.current), false)
      else if size <= LOG_LIMIT then (Logs(logs.current, None), true)
      else
        var tail := OversizedTail(logs.current.value);
        if io.copied < |tail| then (Logs(Some(tail[..io.copied]), logs.current), false)
        else if !io.empties then (Logs(Some(tail), logs.current), false)
        else (Logs(Some(tail), Some([])), true)
  }

  function Appended(logs: Logs, line: Bytes, io: Io): Logs {
    logs.(current := Some(Content(logs.current) + line[..Min(io.written, |line|)]))
  }

  function Recorded(logs: Logs, line: Bytes, io: Io): Logs {
    var (rotated, ok) := Rotated(logs, |line|, io);
    if ok then Appended(rotated, line, io) else rotated
  }

  function RecordedAll(logs: Logs, lines: seq<(Bytes, Io)>): Logs {
    if lines == [] then logs
    else Recorded(RecordedAll(logs, lines[..|lines| - 1]), lines[|lines| - 1].0, lines[|lines| - 1].1)
  }

  // Everything recorded by a list of lines.
  function Everything(lines: seq<(Bytes, Io)>): Bytes {
    if lines == [] then [] else Everything(lines[..|lines| - 1]) + lines[|lines| - 1].0
  }

  lemma {:induction false} RecordKeepsLimits(logs: Logs, line: Bytes, io: Io)
    requires WithinLimits(logs) && |line| <= LOG_LIMIT
    ensures WithinLimits(Recorded(logs, line, io))
  {
  }

  /** Size. Whatever fails, files that start within the limit stay within it. */
  lemma {:induction false} LimitsHold(logs: Logs, lines: seq<(Bytes, Io)>)
    requires WithinLimits(logs) && forall i :: 0 <= i < |lines| ==> |lines[i].0| <= LOG_LIMIT
    ensures WithinLimits(RecordedAll(logs, lines))
  {
    if lines != [] {
      LimitsHold(logs, lines[..|lines| - 1]);
      RecordKeepsLimits(RecordedAll(logs, lines[..|lines| - 1]), lines[|lines| - 1].0, lines[|lines| - 1].1);
    }
  }

  ghost predicate LinedLogs(logs: Logs) {
    Lined(Content(logs.previous)) && Lined(Content(logs.current))
  }

  lemma {:induction false} LinedConcat(a: Bytes, b: Bytes)
    requires Lined(a) && Lined(b)
    ensures Lined(a + b)
  {
  }

  // A line recorded without trouble.
  predicate Smooth(line: Bytes, io: Io) {
    Lined(line) && |line| <= LOG_LIMIT && io.measures && io.removes && io.moves && io.written >= |line|
  }

  lemma {:induction false} RecordKeepsTail(logs: Logs, line: Bytes, io: Io, whole: Bytes)
    requires WithinLimits(logs) && LinedLogs(logs) && LineTail(All(logs), whole)
    requires Smooth(line, io)
    ensures LinedLogs(Recorded(logs, line, io)) && LineTail(All(Recorded(logs, line, io)), whole + line)
  {
    var head :| whole == head + All(logs) && Lined(head);
    var previous, current := Content(logs.previous), Content(logs.current);
    var next := Recorded(logs, line, io);
    var (rotated, ok) := Rotated(logs, |line|, io);
    assert line[..|line|] == line;
    if rotated == logs {
      Regrouped(previous, current, line);
      Regrouped(head, All(logs), line);
      assert whole + line == head + All(next);
      LinedConcat(current, line);
    } else {
      LinedConcat(head, previous);
      Regrouped(head, previous, current);
      Regrouped(head + previous, current, line);
      assert [] + line == line;
      assert whole + line == (head + previous) + All(next);
    }
  }

  /** Content. With the file operations succeeding, the previous log followed by the current one
      is always a run of whole lines at the end of everything recorded. */
  lemma {:induction false} LogsAreTail(logs: Logs, lines: seq<(Bytes, Io)>)
    requires WithinLimits(logs) && LinedLogs(logs)
    requires forall i :: 0 <= i < |lines| ==> Smooth(lines[i].0, lines[i].1)
    ensures LinedLogs(RecordedAll(logs, lines))
    ensures LineTail(All(RecordedAll(logs, lines)), All(logs) + Everything(lines))
  {
    if lines == [] {
      assert All(logs) + [] == [] + All(logs);
    } else {
      var init := lines[..|lines| - 1];
      LogsAreTail(logs, init);
      LimitsHold(logs, init);
      var line, io := lines[|lines| - 1].0, lines[|lines| - 1].1;
      RecordKeepsTail(RecordedAll(logs, init), line, io, All(logs) + Everything(init));
      Regrouped(All(logs), Everything(init), line);
    }
  }

  /** One record without trouble: the line is appended, or else it starts a new log and the current
      one becomes the previous. */
  lemma {:induction false} RecordIs(logs: Logs, line: Bytes, io: Io)
    requires WithinLimits(logs) && Smooth(line, io)
    ensures var before, next := Content(logs.current), Recorded(logs, line, io);
            if |before| + |line| <= 0x50_0000 then next == Logs(logs.previous, Some(before + line))
            else next == Logs(Some(before), Some(line))
  {
    assert line[..|line|] == line && [] + line == line;
  }

  /** A record that finds the log oversized: the old log is the end of it, as much as could be copied,
      and only once it is all there and the log is empty the line is written. */
  lemma {:induction false} OversizedRecordIs(logs: Logs, line: Bytes, io: Io)
    requires logs.current.Some? && |logs.current.value| > 0x50_0000 && io.measures && io.removes && io.moves
    ensures var tail, next := OversizedTail(logs.current.value), Recorded(logs, line, io);
            if io.copied >= |tail| && io.empties then next == Logs(Some(tail), Some(line[..Min(io.written, |line|)]))
            else next == Logs(Some(tail[..Min(io.copied, |tail|)]), logs.current)
  {
    var tail := OversizedTail(logs.current.value);
    assert tail[..|tail|] == tail;
    assert [] + line[..Min(io.written, |line|)] == line[..Min(io.written, |line|)];
  }

  /** What is kept is everything, or more than 5 MiB of it: older lines go only when there are that
      many newer ones. */
  lemma {:induction false} NothingRecentIsLost(logs: Logs, lines: seq<(Bytes, Io)>)
    requires WithinLimits(logs) && forall i :: 0 <= i < |lines| ==> Smooth(lines[i].0, lines[i].1)
    ensures var kept := All(RecordedAll(logs, lines));
            kept == All(logs) + Everything(lines) || |kept| > 0x50_0000
  {
    if lines == [] {
      assert All(logs) + [] == All(logs);
    } else {
      var init, line, io := lines[..|lines| - 1], lines[|lines| - 1].0, lines[|lines| - 1].1;
      var before := RecordedAll(logs, init);
      NothingRecentIsLost(logs, init);
      LimitsHold(logs, init);
      RecordIs(before, line, io);
      Regrouped(Content(before.previous), Content(before.current), line);
      Regrouped(All(logs), Everything(init), line);
    }
  }

  /** Whatever fails, a log that is not oversized is kept: it is still the current one, perhaps with
      some of the line, or it is the previous one. */
  lemma {:induction false} CurrentIsKept(logs: Logs, line: Bytes, io: Io)
    requires logs.current.Some? && |logs.current.value| <= LOG_LIMIT
    ensures var next := Recorded(logs, line, io);
            || next.previous == logs.current
            || (next.current.Some? && exists k ::
                  0 <= k <= |line| && next.current.value == logs.current.value + line[..k])
  {
    var before := logs.current.value;
    assert before + line[..0] == before;
    assert before + line[..Min(io.written, |line|)] == Content(Some(before)) + line[..Min(io.written, |line|)];
  }

  lemma {:induction false} SkipLineAtLineEnd(bytes: Bytes)
    requires NEWLINE in bytes
    ensures exists head :: bytes == head + SkipLine(bytes) && Lined(head) && head != []
  {
    if bytes[0] == NEWLINE {
      var head := [bytes[0]];
      assert bytes == head + SkipLine(bytes) && Lined(head);
    } else {
      SkipLineAtLineEnd(bytes[1..]);
      var rest :| bytes[1..] == rest + SkipLine(bytes) && Lined(rest) && rest != [];
      var head := [bytes[0]] + rest;
      assert bytes == head + SkipLine(bytes) && Lined(head);
    }
  }

  lemma {:induction false} SkipLineWithoutLineEnd(bytes: Bytes)
    requires NEWLINE !in bytes
    ensures SkipLine(bytes) == []
  {
    if bytes != [] {
      SkipLineWithoutLineEnd(bytes[1..]);
    }
  }

  // What is kept of an oversized log.
  function OversizedTail(bytes: Bytes): Bytes
    requires |bytes| > LOG_LIMIT
  {
    SkipLine(bytes[|bytes| - LOG_LIMIT..])
  }

  /** What is kept of an oversized log starts at a line exactly when there is a line end in its
      last 5 MiB; its own last line may be cut short. */
  lemma {:induction false} OversizedTailIff(bytes: Bytes)
    requires |bytes| > LOG_LIMIT
    ensures LineTail(OversizedTail(bytes), bytes) <==> NEWLINE in bytes[|bytes| - LOG_LIMIT..]
  {
    var cut := |bytes| - LOG_LIMIT;
    WindowTail(bytes[..cut], bytes[cut..]);
    assert bytes == bytes[..cut] + bytes[cut..];
  }

  lemma {:induction false} WindowTail(before: Bytes, window: Bytes)
    requires window != []
    ensures LineTail(SkipLine(window), before + window) <==> NEWLINE in window
  {
    if NEWLINE in window {
      SkipLineAtLineEnd(window);
      var head :| window == head + SkipLine(window) && Lined(head) && head != [];
      Regrouped(before, head, SkipLine(window));
      assert before + window == (before + head) + SkipLine(window);
      assert Lined(before + head);
    } else {
      SkipLineWithoutLineEnd(window);
      assert !Lined(before + window);
      forall head | before + window == head + [] ensures !Lined(head) {
        assert head + [] == head;
      }
    }
  }

  /** An oversized log found at start-up is cut to the end of itself, within the limit. */
  lemma {:induction false} OversizedIsCut(logs: Logs, io: Io)
    requires logs.current.Some? && |logs.current.value| > LOG_LIMIT
    requires io.measures && io.removes && io.moves && io.copied >= LOG_LIMIT && io.empties
    ensures var (next, ok) := Rotated(logs, 0, io);
            && ok && WithinLimits(next)
            && next == Logs(Some(OversizedTail(logs.current.value)), Some([]))
            && (LineTail(All(next), logs.current.value)
                <==> NEWLINE in logs.current.value[|logs.current.value| - LOG_LIMIT..])
  {
    var tail := OversizedTail(logs.current.value);
    OversizedTailIff(logs.current.value);
    assert tail[..|tail|] == tail && tail + [] == tail;
  }

  // ---- Entries ----

  // `clean`
  function Clean(value: string, limit: nat, control: char -> bool): string {
    TakeChars(Printable(value, control), limit)
  }

  function Printable(value: string, control: char -> bool): (s: string)
    ensures forall i :: 0 <= i < |s| ==> !control(s[i])
  {
    if value == "" then "" else (if control(value[0]) then "" else [value[0]]) + Printable(value[1..], control)
  }

  lemma {:induction false} PrintableConcat(a: string, b: string, control: char -> bool)
    ensures Printable(a + b, control) == Printable(a, control) + Printable(b, control)
    ensures |b| == 1 ==> Printable(b, control) == if control(b[0]) then "" else b
  {
    if a == "" {
      assert a + b == b;
    } else {
      assert (a + b)[1..] == a[1..] + b;
      PrintableConcat(a[1..], b, control);
    }
  }

  /** Cleaning keeps the first characters that are no control characters. */
  lemma {:induction false} CleanIs(value: string, limit: nat, control: char -> bool)
    ensures var all, clean := Printable(value, control), Clean(value, limit, control);
            clean <= all && |clean| == Min(|all|, limit)
    ensures (forall i :: 0 <= i < |value| ==> !control(value[i])) ==> Printable(value, control) == value
  {
    if value != "" {
      CleanIs(value[1..], limit, control);
    }
  }

  function Formatted(e: Entry): string {
    Decimal(e.at) + " [" + e.area + "] " + e.event + ": " + e.detail + "\n"
  }

  predicate OneLine(s: string) {
    '\n' !in s
  }

  // An entry as `record` makes it: cleaned and redacted text, a 128-bit time.
  predicate Ready(e: Entry) {
    && OneLine(e.area) && OneLine(e.event) && OneLine(e.detail)
    && |e.area| <= AREA_CHARS && |e.event| <= EVENT_CHARS && ByteLen(e.detail) <= DETAIL_BYTES + 4
    && e.at < Pow10(39)
  }

  lemma {:induction false} FormattedBytes(e: Entry)
    requires Ready(e)
    ensures ByteLen(Formatted(e)) <= 39 + 4 * AREA_CHARS + 4 * EVENT_CHARS + DETAIL_BYTES + 11
  {
    DecimalLength(e.at, 39);
    CharsBytes(e.area);
    CharsBytes(e.event);
    var a := Decimal(e.at);
    ByteLenConcat(a, " [");
    ByteLenConcat(a + " [", e.area);
    ByteLenConcat(a + " [" + e.area, "] ");
    ByteLenConcat(a + " [" + e.area + "] ", e.event);
    ByteLenConcat(a + " [" + e.area + "] " + e.event, ": ");
    ByteLenConcat(a + " [" + e.area + "] " + e.event + ": ", e.detail);
    ByteLenConcat(a + " [" + e.area + "] " + e.event + ": " + e.detail, "\n");
    ShortBytes();
  }

  lemma {:induction false} ShortBytes()
    ensures ByteLen(" [") == 2 && ByteLen("] ") == 2 && ByteLen(": ") == 2 && ByteLen("\n") == 1
  {
    assert " ["[1..] == "[" && "["[1..] == "" && "] "[1..] == " " && " "[1..] == "";
    assert ": "[1..] == " " && "\n"[1..] == "";
  }

  /** Every entry becomes exactly one line, far below the log limit. */
  lemma {:induction false} EntryIsOneLine(e: Entry)
    requires Ready(e)
    ensures var line := Utf8(Formatted(e));
            && 0 < |line| <= LOG_LIMIT && Lined(line)
            && NEWLINE !in line[..|line| - 1]
  {
    FormattedBytes(e);
    var text := Decimal(e.at) + " [" + e.area + "] " + e.event + ": " + e.detail;
    DecimalDigits(e.at);
    assert OneLine(text);
    Utf8Concat(text, "\n");
    assert Utf8("\n") == [NEWLINE] by { assert "\n"[1..] == ""; }
    assert Utf8(Formatted(e)) == Utf8(text) + [NEWLINE];
  }

  // ---- The service ----

  function LastEntries(entries: seq<Entry>): seq<Entry> {
    if |entries| <= ENTRY_LIMIT then entries else entries[|entries| - ENTRY_LIMIT..]
  }

  /** The last 1200 entries. */
  lemma {:induction false} LastEntriesAre(entries: seq<Entry>)
    ensures var last := LastEntries(entries);
            |last| == Min(|entries|, 1200) && exists older :: entries == older + last
  {
    var last := LastEntries(entries);
    assert entries == entries[..|entries| - |last|] + last;
  }

  class DiagnosticsService {
    var entries: seq<Entry>
    var logs: Logs
    ghost var history: seq<Entry>              // every entry recorded

    constructor (logs: Logs, io: Io)
      ensures Valid() && history == []
      ensures this.logs == Rotated(logs, 0, io).0
    {
      this.entries, this.history := [], [];
      this.logs := Rotated(logs, 0, io).0;
    }

    ghost predicate Valid()
      reads this
    {
      entries == LastEntries(history)
    }

    method RotateLog(incoming: nat, io: Io) returns (ok: bool)
      modifies this`logs
      ensures (logs, ok) == Rotated(old(logs), incoming, io)
    {
      if logs.current.None? {
        return true;
      }
      if !io.measures {
        return false;
      }
      var current := logs.current.value;
      if SaturatingAdd(|current|, incoming) <= LOG_LIMIT {
        return true;
      }
      if logs.previous.Some? {
        if !io.removes {
          return false;
        }
        logs := logs.(previous := None);
      }
      if !io.moves {
        return false;
      }
      if |current| <= LOG_LIMIT {
        logs := Logs(logs.current, None);
        return true;
      }
      var tail := SkipLine(current[|current| - LOG_LIMIT..]);
      assert tail[..|tail|] == tail;
      logs := logs.(previous := Some(tail[..Min(io.copied, |tail|)]));
      if io.copied < |tail| || !io.empties {
        return false;
      }
      logs := logs.(current := Some([]));
      ok := true;
    }

    // The entry joins the bounded list; the oldest one makes room.
    method Remember(entry: Entry)
      requires Valid()
      modifies this`entries, this`history
      ensures Valid() && history == old(history) + [entry] && |entries| <= ENTRY_LIMIT
    {
      if |entries| == ENTRY_LIMIT {
        entries := entries[1..];
      }
      entries := entries + [entry];
      history := history + [entry];
    }

    method WriteLine(line: Bytes, io: Io)
      modifies this`logs
      ensures logs == Recorded(old(logs), line, io)
    {
      var ok := RotateLog(|line|, io);
      if ok {
        logs := Appended(logs, line, io);
      }
    }

    /** One record: the entry joins the list, its line the log. */
    method Record(at: nat, area: string, event: string, detail: string, control: char -> bool, space: Space,
                  sensitive: Sensitive, io: Io)
      returns (entry: Entry)
      requires Valid() && at < Pow10(39) && control('\n') && space('\n')
      modifies this
      ensures Valid() && history == old(history) + [entry] && |entries| <= ENTRY_LIMIT
      ensures Ready(entry) && logs == Recorded(old(logs), Utf8(Formatted(entry)), io)
      ensures entry == Entry(at, Clean(area, AREA_CHARS, control), Clean(event, EVENT_CHARS, control),
                             Redacted(AllRendered(Tokens(detail, space), sensitive), DETAIL_BYTES))
    {
      entry := MakeEntry(at, area, event, detail, control, space, sensitive);
      Remember(entry);
      WriteLine(Utf8(Formatted(entry)), io);
    }
  }

  method MakeEntry(at: nat, area: string, event: string, detail: string, control: char -> bool, space: Space,
                   sensitive: Sensitive)
    returns (entry: Entry)
    requires at < Pow10(39) && control('\n') && space('\n')
    ensures Ready(entry)
    ensures entry == Entry(at, Clean(area, AREA_CHARS, control), Clean(event, EVENT_CHARS, control),
                           Redacted(AllRendered(Tokens(detail, space), sensitive), DETAIL_BYTES))
  {
    var rendered := Redact(detail, DETAIL_BYTES, space, sensitive);
    entry := Entry(at, Clean(area, AREA_CHARS, control), Clean(event, EVENT_CHARS, control), rendered);
    CleanIsOneLine(area, AREA_CHARS, control);
    CleanIsOneLine(event, EVENT_CHARS, control);
    RedactedIsOneLine(Tokens(detail, space), sensitive, DETAIL_BYTES, space);
  }

  lemma {:induction false} CleanIsOneLine(value: string, limit: nat, control: char -> bool)
    requires control('\n')
    ensures OneLine(Clean(value, limit, control)) && |Clean(value, limit, control)| <= limit
  {
  }

  lemma {:induction false} JoinOneLine(ws: seq<string>)
    requires forall i :: 0 <= i < |ws| ==> OneLine(ws[i])
    ensures OneLine(Join(ws))
  {
    if |ws| > 1 {
      JoinOneLine(ws[1..]);
    }
  }

  lemma {:induction false} RedactedIsOneLine(tokens: seq<string>, sensitive: Sensitive, limit: nat, space: Space)
    requires space('\n')
    requires forall k :: 0 <= k < |tokens| ==> forall i :: 0 <= i < |tokens[k]| ==> !space(tokens[k][i])
    ensures OneLine(Redacted(AllRendered(tokens, sensitive), limit))
  {
    var ws := Pieces(AllRendered(tokens, sensitive), limit);
    forall k | 0 <= k < |ws| ensures OneLine(ws[k]) {
      if k < KeptFrom(AllRendered(tokens, sensitive), 0, limit) {
        assert ws[k] == Rendered(tokens[k], sensitive);
      }
    }
    JoinOneLine(ws);
  }
}
