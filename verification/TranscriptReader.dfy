/** The bounded lifecycle scan of a host transcript: chunked reads refine splitting the whole file into lines. */
module TranscriptReader {
  import opened LineBreaks
  import opened Wrappers

  type Byte = b: int | 0 <= b < 256

  const NEWLINE: Byte := 10
  const MAX_FILE := 512 * 1024 * 1024
  const MAX_LINE := 16 * 1024 * 1024
  const MAX_ENTRIES := 4096
  const CHUNK := 64 * 1024

  /** The `type` of a payload: a string, or another value whose conversion to a string is given. */
  datatype EventType = Text(name: string) | Coerced(name: string)

  /** The fields of a payload that the turn checks read; a number counts only when it is a safe integer. */
  datatype Payload = Payload(turnId: Option<string>, eventType: EventType, rootTurnId: Option<string>,
                             startedAt: Option<int>, completedAt: Option<int>, inWorktree: bool)

  /** A parsed line: a record with a type and an optional object payload, or some other value. */
  datatype Row = Row(kind: string, payload: Option<Payload>) | Other

  datatype ReadError = ReadBound | TranscriptChanged | LineBound | BadLine | EntryBound | IncompleteLine

  type Parser = seq<Byte> -> Option<Row>

  const LIFECYCLE := {"task_started", "task_complete", "turn_aborted"}

  /** The rows that the scan retains: this turn's contexts and lifecycle events. */
  predicate Retained(row: Row, turnId: string) {
    && row.Row? && row.payload.Some? && row.payload.value.turnId == Some(turnId)
    && (row.kind == "turn_context" || (row.kind == "event_msg" && row.payload.value.eventType.name in LIFECYCLE))
  }

  // The whole file, line by line.

  /** The effect of one complete line on the rows kept so far. */
  function Keep(rows: seq<Row>, line: seq<Byte>, parse: Parser, turnId: string): (kept: Result<seq<Row>, ReadError>)
    ensures kept.Err? ==> !kept.error.IncompleteLine?
  {
    if |line| > MAX_LINE then Err(LineBound)
    else
      var row := parse(line);
      if row.None? then Err(BadLine)
      else if !Retained(row.value, turnId) then Ok(rows)
      else if |rows| >= MAX_ENTRIES then Err(EntryBound) else Ok(rows + [row.value])
  }

  /** Splitting the rest of a file into newline-terminated lines; nothing may follow the last newline. */
  function Scan(rows: seq<Row>, file: seq<Byte>, parse: Parser, turnId: string): Result<seq<Row>, ReadError>
    decreases |file|
  {
    var i := Break(file, NEWLINE);
    if i == |file| then
      if |file| > MAX_LINE then Err(LineBound) else if file != [] then Err(IncompleteLine) else Ok(rows)
    else
      var kept := Keep(rows, file[..i], parse, turnId);
      if kept.Err? then kept else Scan(kept.value, file[i + 1..], parse, turnId)
  }

  /** One line found: the scan goes on after it. */
  lemma ScanLine(rows: seq<Row>, line: seq<Byte>, rest: seq<Byte>, parse: Parser, turnId: string)
    requires NEWLINE !in line
    ensures var kept := Keep(rows, line, parse, turnId);
            Scan(rows, line + [NEWLINE] + rest, parse, turnId)
            == if kept.Err? then kept else Scan(kept.value, rest, parse, turnId)
  {
    var s := line + [NEWLINE] + rest;
    assert s[..|line|] == line && s[|line| + 1..] == rest;
    BreakUnique(s, NEWLINE, |line|);
  }

  function Concat(parts: seq<seq<Byte>>): seq<Byte> {
    if parts == [] then [] else Concat(parts[..|parts| - 1]) + parts[|parts| - 1]
  }

  lemma ConcatAppend(parts: seq<seq<Byte>>, last: seq<Byte>)
    ensures Concat(parts + [last]) == Concat(parts) + last
  {
  }

  lemma SubSlice(buffer: array<Byte>, count: nat, start: nat, end: nat)
    requires start <= end <= count <= buffer.Length
    ensures buffer[..count][start..end] == buffer[start..end]
  {
  }

  method IndexOfNewline(buffer: array<Byte>, start: nat, count: nat) returns (index: int)
    requires start <= count <= buffer.Length
    ensures index < 0 ==> NEWLINE !in buffer[..count][start..]
    ensures index >= 0 ==> start <= index < count && buffer[index] == NEWLINE && NEWLINE !in buffer[..count][start..index]
  {
    for i := start to count
      invariant NEWLINE !in buffer[..count][start..i]
    {
      if buffer[i] == NEWLINE {
        return i;
      }
    }
    return -1;
  }

  // Reads.

  /** How many bytes a read at an offset delivers when so many are requested, as far as the environment decides it. */
  type Delivery = (nat, nat) -> nat

  /** A read may deliver any number of bytes up to the request, also none. */
  function Delivered(delivers: Delivery, offset: nat, request: nat): nat {
    if delivers(offset, request) < request then delivers(offset, request) else request
  }

  function Request(offset: nat, size: nat): nat
    requires offset < size
  {
    if CHUNK < size - offset then CHUNK else size - offset
  }

  /** The first offset at which the reads, each starting where the one before it ended, deliver nothing. */
  function StallPoint(delivers: Delivery, offset: nat, size: nat): (stall: Option<nat>)
    ensures stall.Some? ==> offset <= stall.value < size
    decreases size - offset
  {
    if offset >= size then None
    else
      var count := Delivered(delivers, offset, Request(offset, size));
      if count == 0 then Some(offset) else StallPoint(delivers, offset + count, size)
  }

  lemma StallStep(delivers: Delivery, offset: nat, size: nat)
    requires offset < size
    ensures var count := Delivered(delivers, offset, Request(offset, size));
            && count <= Request(offset, size) && Request(offset, size) <= CHUNK && offset + Request(offset, size) <= size
            && StallPoint(delivers, offset, size)
               == if count == 0 then Some(offset) else StallPoint(delivers, offset + count, size)
  {
  }

  lemma NextChunk(file: seq<Byte>, readable: seq<Byte>, offset: nat, chunk: seq<Byte>)
    requires readable <= file && offset + |chunk| <= |readable| && chunk == file[offset..offset + |chunk|]
    ensures readable[offset..] == chunk + readable[offset + |chunk|..]
  {
  }

  method ReadSync(file: seq<Byte>, buffer: array<Byte>, request: nat, offset: nat, delivers: Delivery) returns (count: nat)
    requires request <= buffer.Length && offset + request <= |file|
    modifies buffer
    ensures count == Delivered(delivers, offset, request) && buffer[..count] == file[offset..offset + count]
  {
    count := Delivered(delivers, offset, request);
    forall i | 0 <= i < count {
      buffer[i] := file[offset + i];
    }
  }

  /** The answer for a file whose reads stall after the given beginning: a bound or a bad line in it comes first. */
  function Stalled(beginning: seq<Byte>, parse: Parser, turnId: string): Result<seq<Row>, ReadError> {
    var r := Scan([], beginning, parse, turnId);
    if r.Ok? || r.error.IncompleteLine? then Err(TranscriptChanged) else r
  }

  /** What one loop step over the chunk keeps: the scan of everything, from the beginning of the pending line. */
  ghost predicate Same(target: Result<seq<Row>, ReadError>, rows: seq<Row>, pending: seq<Byte>, rest: seq<Byte>,
                       parse: Parser, turnId: string) {
    target == Scan(rows, pending + rest, parse, turnId)
  }

  lemma SameAfterLine(target: Result<seq<Row>, ReadError>, rows: seq<Row>, pending: seq<Byte>, segment: seq<Byte>, rest: seq<Byte>,
                      parse: Parser, turnId: string)
    requires Same(target, rows, pending, segment + [NEWLINE] + rest, parse, turnId) && NEWLINE !in pending && NEWLINE !in segment
    ensures var kept := Keep(rows, pending + segment, parse, turnId);
            if kept.Err? then target == kept else Same(target, kept.value, [], rest, parse, turnId)
  {
    hide Keep, Scan;
    assert pending + (segment + [NEWLINE] + rest) == (pending + segment) + [NEWLINE] + rest;
    assert [] + rest == rest;
    ScanLine(rows, pending + segment, rest, parse, turnId);
  }

  lemma SameWhenOverlong(target: Result<seq<Row>, ReadError>, rows: seq<Row>, pending: seq<Byte>, rest: seq<Byte>,
                         parse: Parser, turnId: string)
    requires Same(target, rows, pending, rest, parse, turnId) && NEWLINE !in pending && |pending| > MAX_LINE
    ensures target == Err(LineBound)
  {
  }

  lemma SliceAtNewline(chunk: seq<Byte>, start: nat, newline: nat, after: seq<Byte>)
    requires start <= newline < |chunk| && chunk[newline] == NEWLINE
    ensures chunk[start..] + after == chunk[start..newline] + [NEWLINE] + (chunk[newline + 1..] + after)
  {
  }

  /** Consume one chunk; the pending beginning of a line is copied out of the buffer before the next read. */
  method ScanChunk(buffer: array<Byte>, count: nat, rows0: seq<Row>, parts0: seq<seq<Byte>>, parse: Parser, turnId: string,
                   ghost after: seq<Byte>, ghost target: Result<seq<Row>, ReadError>)
    returns (error: Option<ReadError>, rows: seq<Row>, parts: seq<seq<Byte>>)
    requires count <= buffer.Length && |Concat(parts0)| <= MAX_LINE && NEWLINE !in Concat(parts0)
    requires Same(target, rows0, Concat(parts0), buffer[..count] + after, parse, turnId)
    ensures error.Some? ==> target == Err(error.value) && !error.value.IncompleteLine?
    ensures error.None? ==> Same(target, rows, Concat(parts), after, parse, turnId)
    ensures error.None? ==> |Concat(parts)| <= MAX_LINE && NEWLINE !in Concat(parts)
  {
    hide Same, Scan, Keep;
    ghost var chunk := buffer[..count];
    rows, parts, error := rows0, parts0, None;
    var start := 0;
    var newline := IndexOfNewline(buffer, start, count);
    while newline >= 0
      invariant buffer[..count] == chunk
      invariant start <= count && |Concat(parts)| <= MAX_LINE && NEWLINE !in Concat(parts)
      invariant Same(target, rows, Concat(parts), chunk[start..] + after, parse, turnId)
      invariant newline < 0 ==> NEWLINE !in chunk[start..]
      invariant newline >= 0 ==> start <= newline < count && chunk[newline] == NEWLINE && NEWLINE !in chunk[start..newline]
      decreases count - start
    {
      var segment := buffer[start..newline];
      SubSlice(buffer, count, start, newline);
      ConcatAppend(parts, segment);
      SliceAtNewline(chunk, start, newline, after);
      SameAfterLine(target, rows, Concat(parts), segment, chunk[newline + 1..] + after, parse, turnId);
      var kept := Keep(rows, Concat(parts + [segment]), parse, turnId);
      if kept.Err? {
        error := Some(kept.error);
        return;
      }
      rows, parts := kept.value, [];
      start := newline + 1;
      newline := IndexOfNewline(buffer, start, count);
    }
    if start < count {
      var rest := buffer[start..count];
      SubSlice(buffer, count, start, count);
      ConcatAppend(parts, rest);
      SameMoved(target, rows, Concat(parts), rest, after, parse, turnId);
      parts := parts + [rest];
    } else {
      assert chunk[start..] + after == after;
    }
    if |Concat(parts)| > MAX_LINE {
      SameWhenOverlong(target, rows, Concat(parts), after, parse, turnId);
      error := Some(LineBound);
    }
  }

  lemma SameMoved(target: Result<seq<Row>, ReadError>, rows: seq<Row>, pending: seq<Byte>, start: seq<Byte>, rest: seq<Byte>,
                  parse: Parser, turnId: string)
    ensures Same(target, rows, pending, start + rest, parse, turnId) == Same(target, rows, pending + start, rest, parse, turnId)
  {
    assert pending + (start + rest) == (pending + start) + rest;
  }

  /** The scan with one reused buffer. However the reads are cut, it answers as the whole file does; when a read delivers
      nothing it reports the changed transcript, unless what was read before it already holds an error. */
  method ReadLifecycleEntries(file: seq<Byte>, parse: Parser, turnId: string, delivers: Delivery)
    returns (r: Result<seq<Row>, ReadError>)
    ensures |file| > MAX_FILE ==> r == Err(ReadBound)
    ensures |file| <= MAX_FILE ==>
              match StallPoint(delivers, 0, |file|)
              case None => r == Scan([], file, parse, turnId)
              case Some(offset) => r == Stalled(file[..offset], parse, turnId)
  {
    hide Scan, Keep, Same, StallPoint, Delivered, Request, Concat;
    if |file| > MAX_FILE {
      return Err(ReadBound);
    }
    ghost var stall := StallPoint(delivers, 0, |file|);
    ghost var readable := if stall.Some? then file[..stall.value] else file;
    ghost var target := Scan([], readable, parse, turnId);
    var entries: seq<Row> := [];
    var buffer := new Byte[CHUNK];
    var parts: seq<seq<Byte>> := [];
    var offset := 0;
    SameAtStart(parts, readable, parse, turnId);
    while offset < |file|
      invariant offset <= |readable| && StallPoint(delivers, offset, |file|) == stall
      invariant |Concat(parts)| <= MAX_LINE && NEWLINE !in Concat(parts)
      invariant Same(target, entries, Concat(parts), readable[offset..], parse, turnId)
      decreases |file| - offset
    {
      StallStep(delivers, offset, |file|);
      var request := Request(offset, |file|);
      var count := ReadSync(file, buffer, request, offset, delivers);
      if count == 0 {
        SameAtEnd(target, entries, Concat(parts), readable[offset..], parse, turnId);
        return Err(TranscriptChanged);
      }
      NextChunk(file, readable, offset, buffer[..count]);
      var error;
      error, entries, parts := ScanChunk(buffer, count, entries, parts, parse, turnId, readable[offset + count..], target);
      if error.Some? {
        return Err(error.value);
      }
      offset := offset + count;
    }
    SameAtEnd(target, entries, Concat(parts), readable[offset..], parse, turnId);
    if |Concat(parts)| != 0 {
      return Err(IncompleteLine);
    }
    return Ok(entries);
  }

  lemma SameAtStart(parts: seq<seq<Byte>>, file: seq<Byte>, parse: Parser, turnId: string)
    requires parts == []
    ensures Concat(parts) == [] && Same(Scan([], file, parse, turnId), [], Concat(parts), file[0..], parse, turnId)
  {
    assert Concat(parts) + file[0..] == file;
  }

  lemma SameAtEnd(target: Result<seq<Row>, ReadError>, rows: seq<Row>, pending: seq<Byte>, rest: seq<Byte>,
                  parse: Parser, turnId: string)
    requires Same(target, rows, pending, rest, parse, turnId) && rest == []
    requires NEWLINE !in pending && |pending| <= MAX_LINE
    ensures target == if pending == [] then Ok(rows) else Err(IncompleteLine)
  {
    assert pending + rest == pending;
    ScanUnterminated(rows, pending, parse, turnId);
  }

  lemma ScanUnterminated(rows: seq<Row>, rest: seq<Byte>, parse: Parser, turnId: string)
    requires NEWLINE !in rest && |rest| <= MAX_LINE
    ensures Scan(rows, rest, parse, turnId) == if rest == [] then Ok(rows) else Err(IncompleteLine)
  {
  }

  // What the whole-file scan means.

  /** The terminated lines of a file. */
  function Lines(file: seq<Byte>): seq<seq<Byte>>
    decreases |file|
  {
    var i := Break(file, NEWLINE);
    if i == |file| then [] else [file[..i]] + Lines(file[i + 1..])
  }

  function Unterminated(file: seq<Byte>): seq<Byte>
    decreases |file|
  {
    var i := Break(file, NEWLINE);
    if i == |file| then file else Unterminated(file[i + 1..])
  }

  /** The retained rows of a list of lines, in order. */
  function RetainedRows(lines: seq<seq<Byte>>, parse: Parser, turnId: string): seq<Row> {
    if lines == [] then []
    else
      var row := parse(lines[0]);
      (if row.Some? && Retained(row.value, turnId) then [row.value] else []) + RetainedRows(lines[1..], parse, turnId)
  }

  ghost predicate GoodLines(lines: seq<seq<Byte>>, parse: Parser) {
    forall i | 0 <= i < |lines| :: |lines[i]| <= MAX_LINE && parse(lines[i]).Some?
  }

  lemma LinesHead(line: seq<Byte>, lines: seq<seq<Byte>>, parse: Parser, turnId: string)
    ensures GoodLines([line] + lines, parse) <==> |line| <= MAX_LINE && parse(line).Some? && GoodLines(lines, parse)
    ensures RetainedRows([line] + lines, parse, turnId)
            == (if parse(line).Some? && Retained(parse(line).value, turnId) then [parse(line).value] else [])
               + RetainedRows(lines, parse, turnId)
  {
    hide Retained;
    var all := [line] + lines;
    assert all[1..] == lines && all[0] == line;
    assert forall k | 0 < k < |all| :: all[k] == lines[k - 1];
    assert forall k | 0 <= k < |lines| :: all[k + 1] == lines[k];
  }

  /** Result r is the rows kept so far and then the given ones, if all is well and they are few enough. */
  ghost predicate Yields(r: Result<seq<Row>, ReadError>, rows: seq<Row>, kept: seq<Row>, well: bool) {
    && (r.Ok? <==> well && |rows| + |kept| <= MAX_ENTRIES)
    && (r.Ok? ==> r.value == rows + kept)
  }

  lemma YieldsOneMore(r: Result<seq<Row>, ReadError>, rows: seq<Row>, row: Row, kept: seq<Row>, well: bool)
    ensures Yields(r, rows + [row], kept, well) <==> Yields(r, rows, [row] + kept, well)
  {
  }

  /** The scan succeeds exactly when every line is within the bound and parses, few enough rows are retained, and the
      file ends with a newline; it then returns exactly this turn's lifecycle rows, in order. */
  lemma {:induction false} ScanExact(rows: seq<Row>, file: seq<Byte>, parse: Parser, turnId: string)
    requires |rows| <= MAX_ENTRIES
    ensures Yields(Scan(rows, file, parse, turnId), rows, RetainedRows(Lines(file), parse, turnId),
                   GoodLines(Lines(file), parse) && Unterminated(file) == [])
    decreases |file|
  {
    var i := Break(file, NEWLINE);
    if i == |file| {
      NoLines(file, parse, turnId);
      assert rows + [] == rows;
    } else {
      hide Retained, GoodLines, RetainedRows, Break, Scan, Lines, Unterminated, Yields;
      var line, rest := file[..i], file[i + 1..];
      OneLine(rows, file, parse, turnId);
      LinesHead(line, Lines(rest), parse, turnId);
      var r, well := Scan(rows, file, parse, turnId), GoodLines(Lines(file), parse) && Unterminated(file) == [];
      var tail := RetainedRows(Lines(rest), parse, turnId);
      if |line| > MAX_LINE || parse(line).None? {
        YieldsNothing(r, rows, RetainedRows(Lines(file), parse, turnId), well);
      } else if !Retained(parse(line).value, turnId) {
        ScanExact(rows, rest, parse, turnId);
        assert [] + tail == tail;
      } else if |rows| >= MAX_ENTRIES {
        YieldsNothing(r, rows, [parse(line).value] + tail, well);
      } else {
        ScanExact(rows + [parse(line).value], rest, parse, turnId);
        YieldsOneMore(r, rows, parse(line).value, tail, well);
      }
    }
  }

  lemma YieldsNothing(r: Result<seq<Row>, ReadError>, rows: seq<Row>, kept: seq<Row>, well: bool)
    requires r.Err? && (!well || |rows| + |kept| > MAX_ENTRIES)
    ensures Yields(r, rows, kept, well)
  {
  }

  lemma OneLine(rows: seq<Row>, file: seq<Byte>, parse: Parser, turnId: string)
    requires Break(file, NEWLINE) < |file|
    ensures var line, rest := file[..Break(file, NEWLINE)], file[Break(file, NEWLINE) + 1..];
            var kept := Keep(rows, line, parse, turnId);
            && Scan(rows, file, parse, turnId) == (if kept.Err? then kept else Scan(kept.value, rest, parse, turnId))
            && Lines(file) == [line] + Lines(rest) && Unterminated(file) == Unterminated(rest)
  {
  }

  lemma NoLines(file: seq<Byte>, parse: Parser, turnId: string)
    requires Break(file, NEWLINE) == |file|
    ensures Lines(file) == [] && Unterminated(file) == file
    ensures GoodLines(Lines(file), parse) && RetainedRows(Lines(file), parse, turnId) == []
  {
  }
}
