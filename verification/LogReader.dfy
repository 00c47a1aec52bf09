// internal/bitci/controller.go, ReadLog and readLogLine: the buffered loops.
module LogReader {
  import opened Common
  import opened Configuration
  import opened LogLines
  import opened Redaction

  datatype SliceEnd = Delimiter | BufferFull | EndOfFile

  datatype ReadError = NegativeCursor | CursorBeyondSize

  datatype ReadResult = Output(lines: seq<string>, cursor: int) | Failed(error: ReadError)

  // bufio.Reader over an open file: what it can read and how far it has read.
  class BufferedFile {
    const data: Bytes
    var position: nat

    constructor (data: Bytes, position: nat)
      requires position <= |data|
      ensures this.data == data && this.position == position
    {
      this.data, this.position := data, position;
    }

    // ReadSlice('\n') with a buffer of BUFFER bytes.
    method ReadSlice() returns (fragment: Bytes, end: SliceEnd)
      requires position <= |data|
      modifies this
      ensures old(position) <= position <= |data|
      ensures fragment == data[old(position)..position]
      ensures end.Delimiter? ==> position == LineEnd(data, old(position)) && |fragment| <= BUFFER && fragment != [] && data[position - 1] == '\n'
      ensures !end.Delimiter? ==> '\n' !in fragment
      ensures end.BufferFull? ==> |fragment| == BUFFER
      ensures end.EndOfFile? ==> position == |data| && |fragment| < BUFFER
    {
      var length := 0;
      while length < BUFFER && position + length < |data|
        invariant length <= BUFFER && position + length <= |data|
        invariant '\n' !in data[position..position + length]
        invariant LineEnd(data, position + length) == LineEnd(data, position)
      {
        if data[position + length] == '\n' {
          fragment := data[position..position + length + 1];
          position := position + length + 1;
          return fragment, Delimiter;
        }
        length := length + 1;
      }
      fragment := data[position..position + length];
      position := position + length;
      return fragment, if length == BUFFER then BufferFull else EndOfFile;
    }
  }

  // Bytes of a line without a newline among them only move its start.
  lemma {:induction false} LineEndSkips(data: Bytes, from: nat, to: nat)
    requires from <= to <= |data| && '\n' !in data[from..to]
    ensures LineEnd(data, from) == LineEnd(data, to)
    decreases |data| - from
  {
    if from < to {
      assert data[from] == data[from..to][0];
      assert data[from + 1..to] == data[from..to][1..];
      LineEndSkips(data, from + 1, to);
    }
  }

  function ReadEnd(read: LineRead): SliceEnd {
    match read
    case Whole(_) => Delimiter
    case TooLong(_) => BufferFull
    case AtEnd(_) => EndOfFile
  }

  // `line` keeps whole fragments only, as long as they fit `maxBytes`.
  method ReadLogLine(reader: BufferedFile, maxBytes: nat)
    returns (line: Bytes, consumed: nat, complete: bool, end: SliceEnd)
    requires reader.position <= |reader.data| && maxBytes > 0
    modifies reader
    ensures reader.position == old(reader.position) + consumed <= |reader.data|
    ensures
      var read := ReadLine(reader.data, old(reader.position), maxBytes);
      consumed == read.n && complete == read.Whole? && end == ReadEnd(read)
    ensures consumed <= maxBytes ==> line == reader.data[old(reader.position)..reader.position]
    ensures consumed > maxBytes ==> |line| == FullBuffers(maxBytes)
    ensures !complete ==> '\n' !in line
  {
    hide ReadLine, LineEnd, FullBuffers;
    ghost var start := reader.position;
    ghost var data := reader.data;
    line, consumed := [], 0;
    NoBuffers();
    while true
      invariant reader.position == start + consumed <= |data|
      invariant line == data[start..reader.position]
      invariant '\n' !in line
      invariant consumed == FullBuffers(consumed) < maxBytes
      decreases |data| - reader.position
    {
      ghost var at, whole := reader.position, consumed;
      var fragment;
      fragment, end := reader.ReadSlice();
      LineEndSkips(data, start, at);
      consumed := consumed + |fragment|;
      assert maxBytes < consumed ==> FullBuffers(maxBytes) == whole by {
        if maxBytes < consumed {
          AddBuffers(whole, maxBytes - whole);
        }
      }
      assert data[start..reader.position] == data[start..at] + data[at..reader.position];
      if consumed <= maxBytes {
        line := line + fragment;
      }
      if end.BufferFull? {
        if consumed >= maxBytes {
          BufferFullOutcome(data, start, maxBytes, whole);
          return line, consumed, false, BufferFull;
        }
        assert FullBuffers(consumed) == consumed by { AddBuffers(whole, BUFFER); }
        continue;
      }
      if end.Delimiter? {
        DelimiterOutcome(data, start, maxBytes, whole, |fragment|);
      } else {
        EndOfFileOutcome(data, start, maxBytes, whole, |fragment|);
      }
      return line, consumed, end.Delimiter?, end;
    }
  }

  lemma NoBuffers()
    ensures FullBuffers(0) == 0 && FullBuffers(BUFFER) == BUFFER
    ensures forall n: nat :: n < BUFFER ==> FullBuffers(n) == 0
  {
  }

  lemma {:induction false} AddBuffers(whole: nat, extra: nat)
    requires FullBuffers(whole) == whole
    ensures FullBuffers(whole + extra) == whole + FullBuffers(extra)
    decreases whole
  {
    if whole > 0 {
      AddBuffers(whole - BUFFER, extra);
    }
  }

  // The fragment read after `whole` buffered bytes decides the line: it ended ...
  lemma DelimiterOutcome(data: Bytes, start: nat, maxBytes: nat, whole: nat, length: nat)
    requires start + whole + length <= |data| && 0 < length <= BUFFER
    requires FullBuffers(whole) == whole < maxBytes
    requires start + whole + length == LineEnd(data, start) && data[start + whole + length - 1] == '\n'
    ensures ReadLine(data, start, maxBytes) == Whole(whole + length)
  {
    AddBuffers(whole, length - 1);
  }

  // ... the file did ...
  lemma EndOfFileOutcome(data: Bytes, start: nat, maxBytes: nat, whole: nat, length: nat)
    requires start + whole + length == |data| && length < BUFFER
    requires FullBuffers(whole) == whole < maxBytes
    requires '\n' !in data[start..]
    ensures ReadLine(data, start, maxBytes) == AtEnd(whole + length)
  {
    AddBuffers(whole, length);
    LineEndSkips(data, start, |data|);
    assert whole + length > 0 ==> data[|data| - 1] == data[start..][whole + length - 1];
  }

  // ... or the allowance is used up.
  lemma {:induction false} BufferFullOutcome(data: Bytes, start: nat, maxBytes: nat, whole: nat)
    requires start + whole + BUFFER <= |data|
    requires FullBuffers(whole) == whole < maxBytes <= whole + BUFFER
    requires '\n' !in data[start..start + whole + BUFFER]
    ensures ReadLine(data, start, maxBytes) == TooLong(whole + BUFFER)
  {
    var n := LineEnd(data, start) - start;
    LineEndSkips(data, start, start + whole + BUFFER);
    AddBuffers(whole, BUFFER);
    AddBuffers(whole + BUFFER, n - whole - BUFFER);
    if n > whole + BUFFER {
      AddBuffers(whole + BUFFER, n - whole - BUFFER - 1);
    } else {
      assert data[start + n - 1] == data[start..start + n][n - 1];
    }
    AddBuffers(whole, maxBytes + BUFFER - 1 - whole);
  }

  // logLimit.
  function LogLimit(limit: int): (r: nat)
    ensures 1 <= r <= 80
  {
    if limit < 1 || limit > 80 then 80 else limit
  }

  // The visible text of the lines of an answer, redacted.
  function Texts(data: Bytes, lines: seq<Span>, redact: string -> string): (r: seq<string>)
    requires Inside(data, lines)
    ensures |r| == |lines|
  {
    seq(|lines|, i requires 0 <= i < |lines| => redact(Shown(data, lines[i])))
  }

  lemma TextsAppend(data: Bytes, lines: seq<Span>, more: seq<Span>, redact: string -> string)
    requires Inside(data, lines) && Inside(data, more)
    ensures Texts(data, lines + more, redact) == Texts(data, lines, redact) + Texts(data, more, redact)
    ensures more == [] ==> Texts(data, more, redact) == []
    ensures |more| == 1 ==> Texts(data, more, redact) == [redact(Shown(data, more[0]))]
  {
  }

  ghost predicate Inside(data: Bytes, lines: seq<Span>) {
    forall i :: 0 <= i < |lines| ==> lines[i].start <= lines[i].end <= |data|
  }

  // One turn of the reading loop at a line start: the line to hand out, if any,
  // the cursor to answer with, and whether to go on.
  method TakeLine(reader: BufferedFile, remaining: nat, size: nat, terminal: bool)
    returns (line: Option<string>, cursor: nat, more: bool, ghost handed: seq<Span>)
    requires reader.position < |reader.data| && remaining > 0
    modifies reader
    ensures old(reader.position) <= cursor <= |reader.data|
    ensures Inside(reader.data, handed)
    ensures
      var read := ReadLine(reader.data, old(reader.position), remaining);
      && more == (read.Whole? && read.n <= remaining)
      && (more ==> cursor == reader.position == old(reader.position) + read.n)
    ensures more ==> cursor > old(reader.position) && handed == [Span(old(reader.position), cursor)]
    ensures !more ==> Answer(handed, cursor) == Stop(reader.data, size, terminal, old(reader.position), remaining)
    ensures if handed == [] then line == None else |handed| == 1 && line == Some(Shown(reader.data, handed[0]))
  {
    ghost var at := reader.position;
    ReadLineShape(reader.data, at, remaining);
    var text, consumed, complete, end := ReadLogLine(reader, remaining);
    line, cursor, more, handed := None, reader.position - consumed, false, [];
    if complete && consumed > remaining {
      return None, reader.position, false, [];
    }
    if complete {
      return Some(TrimSuffix(TrimSuffix(text, '\n'), '\r')), reader.position, true, [Span(at, reader.position)];
    }
    if |text| > 0 && terminal && reader.position == size {
      if consumed <= remaining {
        line, handed := Some(TrimSuffix(text, '\r')), [Span(at, reader.position)];
      }
      cursor := reader.position;
    }
    if !terminal && end.BufferFull? {
      cursor := reader.position - consumed;
    } else if end.BufferFull? {
      cursor := reader.position;
    }
  }

  // `file` is None without a log path or a log file; otherwise the bytes the
  // reads can see. `size` was observed first, so on a growing log it may be less.
  method ReadLog(file: Option<Bytes>, size: nat, terminal: bool, cursor: int, limit: int, redact: string -> string)
    returns (result: ReadResult)
    requires file.Some? ==> size <= |file.value|
    ensures cursor < 0 ==> result == Failed(NegativeCursor)
    ensures cursor >= 0 && file.None? ==> result == Output([], cursor)
    ensures file.Some? && cursor > size ==> result == Failed(CursorBeyondSize)
    ensures file.Some? && 0 <= cursor <= size ==>
      var answer := Read(file.value, size, terminal, cursor, if limit < 1 || limit > 80 then 80 else limit);
      && result.Output? && result.cursor == answer.cursor
      && |result.lines| <= (if limit < 1 || limit > 80 then 80 else limit)
      && Told(file.value, size, terminal, answer.lines, result.lines, redact)
  {
    if cursor < 0 {
      return Failed(NegativeCursor);
    }
    if file.None? {
      return Output([], cursor);
    }
    var data := file.value;
    if cursor > size {
      return Failed(CursorBeyondSize);
    }
    hide Deliver, Read, ReadLine, IsTextOf, Shown, LineEnd, FullBuffers, Texts, Told;
    ReadUnfolds(data, size, terminal, cursor, LogLimit(limit));
    TextsAppend(data, [], [], redact);
    var lines: seq<string> := [];
    var readCursor: nat := cursor;
    var reader := new BufferedFile(data, cursor);
    var room := LogLimit(limit);
    if cursor > 0 && data[cursor - 1] != '\n' {
      ReadLineShape(data, cursor, BUDGET);
      var _, consumed, complete, _ := ReadLogLine(reader, BUDGET);
      readCursor := cursor + consumed;
      if !complete {
        return Output([], readCursor);
      }
    }
    ghost var spans;
    lines, readCursor, spans := HandOut(reader, cursor, size, terminal, room, redact);
    ReadTexts(data, size, terminal, cursor, room, redact);
    return Output(lines, readCursor);
  }

  // Line k is the redacted text of the bytes of span k. Only the last line of a
  // finished log may lack its newline.
  ghost predicate Told(data: Bytes, size: nat, terminal: bool, spans: seq<Span>, lines: seq<string>, redact: string -> string) {
    && |lines| == |spans|
    && forall k :: 0 <= k < |spans| ==>
         && spans[k].start < spans[k].end <= |data|
         && (data[spans[k].end - 1] == '\n' || (terminal && spans[k].end == size))
         && exists text :: IsTextOf(data[spans[k].start..spans[k].end], text) && lines[k] == redact(text)
  }

  lemma ReadUnfolds(data: Bytes, size: nat, terminal: bool, cursor: nat, limit: nat)
    requires cursor <= size <= |data| && limit > 0
    ensures
      var answer := Read(data, size, terminal, cursor, limit);
      if cursor == 0 || data[cursor - 1] == '\n' then answer == Deliver(data, size, terminal, cursor, cursor, limit)
      else
        var read := ReadLine(data, cursor, BUDGET);
        if read.Whole? then answer == Deliver(data, size, terminal, cursor, cursor + read.n, limit)
        else answer == Answer([], cursor + read.n)
  {
  }

  lemma ReadTexts(data: Bytes, size: nat, terminal: bool, cursor: nat, limit: nat, redact: string -> string)
    requires cursor <= size <= |data|
    ensures
      var spans := Read(data, size, terminal, cursor, limit).lines;
      Inside(data, spans) && |spans| <= limit && Told(data, size, terminal, spans, Texts(data, spans, redact), redact)
  {
    hide Read, Shown, IsTextOf;
    var spans := Read(data, size, terminal, cursor, limit).lines;
    ReadHandsOut(data, size, terminal, cursor, limit);
    assert forall k :: 0 <= k < |spans| ==> HandedOut(data, size, terminal, spans[k]);
    forall k | 0 <= k < |spans|
      ensures exists text :: IsTextOf(data[spans[k].start..spans[k].end], text) && Texts(data, spans, redact)[k] == redact(text)
    {
      ShownIsText(data, spans[k]);
    }
  }

  // What is told of a line is its text without newline and carriage return, redacted.
  ghost predicate ToldRedacted(data: Bytes, line: Span, values: seq<string>, told: string)
    requires line.start <= line.end <= |data| && UsableList(values)
  {
    exists text :: IsTextOf(data[line.start..line.end], text) && told == Redact(text, values)
  }

  // A read of a job's log: no answered line holds a value of either configuration
  // that cannot overlap the marker.
  method ReadRedacted(file: Option<Bytes>, size: nat, terminal: bool, cursor: int, limit: int,
      snapshot: Config, current: Config, values: seq<string>) returns (result: ReadResult)
    requires file.Some? ==> size <= |file.value|
    requires RedactionsOk(snapshot) && RedactionsOk(current) && IsRedactionList(snapshot, current, values)
    ensures result.Output? ==>
      forall k, value :: 0 <= k < |result.lines| && (value in snapshot.redact || value in current.redact) && !CanOverlap(value) ==>
        !Contains(result.lines[k], value)
    ensures file.Some? && 0 <= cursor <= size ==>
      var answer := Read(file.value, size, terminal, cursor, if limit < 1 || limit > 80 then 80 else limit);
      && UsableList(values) && Inside(file.value, answer.lines)
      && result.Output? && result.cursor == answer.cursor && |result.lines| == |answer.lines|
      && forall k :: 0 <= k < |answer.lines| ==> ToldRedacted(file.value, answer.lines[k], values, result.lines[k])
  {
    hide CanOverlap, Contains, Redact, Read, IsRedactionList, IsTextOf, Texts;
    ListedValues(snapshot, current, values);
    var redact := (line: string) requires forall i :: 0 <= i < |values| ==> values[i] != "" => Redact(line, values);
    result := ReadLog(file, size, terminal, cursor, limit, redact);
    if file.Some? && 0 <= cursor <= size {
      var answer := Read(file.value, size, terminal, cursor, if limit < 1 || limit > 80 then 80 else limit);
      forall k | 0 <= k < |result.lines|
        ensures ToldRedacted(file.value, answer.lines[k], values, result.lines[k])
        ensures forall value :: value in values && !CanOverlap(value) ==> !Contains(result.lines[k], value)
      {
        var text :| IsTextOf(file.value[answer.lines[k].start..answer.lines[k].end], text) && result.lines[k] == redact(text);
        assert result.lines[k] == Redact(text, values);
        forall value | value in values && !CanOverlap(value)
          ensures !Contains(Redact(text, values), value)
        {
          RedactionComplete(text, values, value);
        }
      }
    }
  }

  // The reading loop proper, from a line start.
  method HandOut(reader: BufferedFile, cursor: nat, size: nat, terminal: bool, room: nat, redact: string -> string)
    returns (lines: seq<string>, readCursor: nat, ghost spans: seq<Span>)
    requires cursor <= reader.position <= |reader.data|
    modifies reader
    ensures readCursor <= |reader.data| && Inside(reader.data, spans)
    ensures lines == Texts(reader.data, spans, redact)
    ensures Answer(spans, readCursor) == Deliver(reader.data, size, terminal, cursor, old(reader.position), room)
  {
    hide Deliver, ReadLine, Stop, Texts, Shown, LineEnd, FullBuffers;
    ghost var data := reader.data;
    ghost var whole := Deliver(data, size, terminal, cursor, reader.position, room);
    lines, spans, readCursor := [], [], reader.position;
    TextsAppend(data, [], [], redact);
    var more := true;
    while more && |lines| < room && readCursor - cursor < BUDGET
      invariant cursor <= readCursor <= |data|
      invariant more ==> reader.position == readCursor
      invariant |lines| <= room && Inside(data, spans) && lines == Texts(data, spans, redact)
      invariant more ==> whole == Continued(spans, Deliver(data, size, terminal, cursor, readCursor, room - |lines|))
      invariant !more ==> whole == Answer(spans, readCursor)
      decreases more, |data| - readCursor
    {
      DeliverUnfolds(data, size, terminal, cursor, readCursor, room - |lines|);
      if readCursor == |reader.data| {
        break;
      }
      var line;
      ghost var handed;
      line, readCursor, more, handed := TakeLine(reader, BUDGET - (readCursor - cursor), size, terminal);
      TextsAppend(data, spans, handed, redact);
      if more {
        ContinuedTwice(spans, handed, Deliver(data, size, terminal, cursor, readCursor, room - |lines| - 1));
      }
      if line.Some? {
        lines := lines + [redact(line.value)];
      } else {
        assert spans + handed == spans;
      }
      spans := spans + handed;
    }
    DeliverUnfolds(data, size, terminal, cursor, readCursor, room - |lines|);
  }
}
