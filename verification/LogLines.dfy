// The meaning of a log for a cursor reader: its lines as spans of the file, and
// what one bounded read must return. The buffered loop is in LogReader.
module LogLines {
  // Bytes are modelled as characters.
  type Bytes = string

  const BUFFER: nat := 4096
  const BUDGET: nat := 1024 * 1024

  // A half-open stretch of the file.
  datatype Span = Span(start: nat, end: nat)

  // The offset just after the next newline at or after `from`, or the end of the file.
  function LineEnd(data: Bytes, from: nat): (end: nat)
    requires from <= |data|
    ensures from <= end <= |data|
    ensures from < |data| ==> from < end
    ensures from < end < |data| ==> data[end - 1] == '\n'
    decreases |data| - from
  {
    if from == |data| then from
    else if data[from] == '\n' then from + 1
    else LineEnd(data, from + 1)
  }

  ghost predicate LineStart(data: Bytes, at: nat) {
    at <= |data| && (at == 0 || data[at - 1] == '\n')
  }

  // A line of the file, its newline included. Only the last line may lack one.
  ghost predicate IsLine(data: Bytes, line: Span) {
    && line.start < |data| && LineStart(data, line.start)
    && line.end == LineEnd(data, line.start)
  }

  ghost predicate Increasing(lines: seq<Span>) {
    forall i, j :: 0 <= i < j < |lines| ==> lines[i].end <= lines[j].start && lines[i].start < lines[i].end
  }

  // ---- One attempt to read a line through the buffer -------------------------

  datatype LineRead =
    | Whole(n: nat)     // ends with a newline
    | TooLong(n: nat)   // gave up at a full buffer once the allowance was used
    | AtEnd(n: nat)     // ran into the end of the file

  // The part of `n` bytes that fills whole buffers.
  function FullBuffers(n: nat): (r: nat)
    ensures r <= n < r + BUFFER
  {
    if n < BUFFER then 0 else BUFFER + FullBuffers(n - BUFFER)
  }

  // A stop at a full buffer never overruns the bytes that fill buffers.
  lemma {:induction false} FullBuffersMonotone(rounded: nat, n: nat)
    ensures rounded <= FullBuffers(n) + BUFFER - 1 ==> FullBuffers(rounded) <= FullBuffers(n)
  {
    if rounded >= BUFFER && n >= BUFFER {
      FullBuffersMonotone(rounded - BUFFER, n - BUFFER);
    }
  }

  lemma {:induction false} WholeBuffers(k: nat)
    ensures FullBuffers(k * BUFFER) == k * BUFFER
  {
    if k > 0 {
      WholeBuffers(k - 1);
    }
  }

  function ReadLine(data: Bytes, at: nat, allowance: nat): (r: LineRead)
    requires at <= |data| && allowance > 0
    ensures at + r.n <= LineEnd(data, at)
  {
    var n := LineEnd(data, at) - at;
    var terminated := n > 0 && data[at + n - 1] == '\n';
    var full := FullBuffers(if terminated then n - 1 else n);
    FullBuffersMonotone(allowance + BUFFER - 1, if terminated then n - 1 else n);
    if allowance <= full then TooLong(FullBuffers(allowance + BUFFER - 1))
    else if terminated then Whole(n)
    else AtEnd(n)
  }

  // How far one attempt moves, and why it stopped.
  lemma ReadLineShape(data: Bytes, at: nat, allowance: nat)
    requires at <= |data| && allowance > 0
    ensures
      var end := LineEnd(data, at);
      match ReadLine(data, at, allowance)
      case Whole(n) => n > 0 && at + n == end && data[end - 1] == '\n' && n < allowance + BUFFER
      case TooLong(n) =>
        && at + n <= end && allowance <= n < allowance + BUFFER
        && (at + n == end ==> end == |data|)
        && (at + n == end ==> data[end - 1] != '\n')
      case AtEnd(n) => at + n == end == |data| && n < allowance + BUFFER && (n > 0 ==> data[end - 1] != '\n')
  {
    var n := LineEnd(data, at) - at;
    FullBuffersMonotone(allowance + BUFFER - 1, n);
    if n > 0 {
      FullBuffersMonotone(allowance + BUFFER - 1, n - 1);
    }
  }

  // ---- One cursor read -------------------------------------------------------

  datatype Answer = Answer(lines: seq<Span>, cursor: nat)

  // The last attempt of a read: a complete line beyond the allowance is passed
  // over, an incomplete one is kept, passed over or, as a log's last line, returned.
  function Stop(data: Bytes, size: nat, terminal: bool, at: nat, left: nat): (r: Answer)
    requires at <= |data| && left > 0
  {
    match ReadLine(data, at, left)
    case Whole(n) => Answer([], at + n)
    case TooLong(n) =>
      if !terminal then Answer([], at)
      else Answer(if at + n == size && n <= left then [Span(at, at + n)] else [], at + n)
    case AtEnd(n) =>
      if terminal && |data| == size && (n <= left || BUFFER <= left)
      then Answer(if n <= left then [Span(at, at + n)] else [], at + n)
      else Answer([], at)
  }

  // Lines handed out from `at`, a line start, by a read that began at `start`.
  // `size` is the file size the call observed; `data` is what it could read.
  function Deliver(data: Bytes, size: nat, terminal: bool, start: nat, at: nat, room: nat): (r: Answer)
    requires start <= at <= |data|
    ensures at <= r.cursor <= |data|
    decreases |data| - at
  {
    if room == 0 || at - start >= BUDGET || at == |data| then Answer([], at)
    else
      var left := BUDGET - (at - start);
      var read := ReadLine(data, at, left);
      if read.Whole? && read.n <= left then
        var rest := Deliver(data, size, terminal, start, at + read.n, room - 1);
        Answer([Span(at, at + read.n)] + rest.lines, rest.cursor)
      else Stop(data, size, terminal, at, left)
  }

  // A read that begins inside a line first skips to that line's end.
  function Read(data: Bytes, size: nat, terminal: bool, cursor: nat, limit: nat): (r: Answer)
    requires cursor <= size <= |data|
    ensures cursor <= r.cursor <= |data|
  {
    if cursor == 0 || data[cursor - 1] == '\n' then Deliver(data, size, terminal, cursor, cursor, limit)
    else if limit == 0 then Answer([], cursor)
    else
      match ReadLine(data, cursor, BUDGET)
      case Whole(n) => Deliver(data, size, terminal, cursor, cursor + n, limit)
      case TooLong(n) => Answer([], cursor + n)
      case AtEnd(n) => Answer([], cursor + n)
  }

  // The three ways a delivery goes on.
  lemma DeliverUnfolds(data: Bytes, size: nat, terminal: bool, start: nat, at: nat, room: nat)
    requires start <= at <= |data|
    ensures
      var answer := Deliver(data, size, terminal, start, at, room);
      if room == 0 || at - start >= BUDGET || at == |data| then answer == Answer([], at)
      else
        var left := BUDGET - (at - start);
        var read := ReadLine(data, at, left);
        if read.Whole? && read.n <= left
        then answer == Continued([Span(at, at + read.n)], Deliver(data, size, terminal, start, at + read.n, room - 1))
        else answer == Stop(data, size, terminal, at, left)
  {
  }

  // Lines already handed out, followed by what a continuation hands out.
  function Continued(lines: seq<Span>, rest: Answer): Answer {
    Answer(lines + rest.lines, rest.cursor)
  }

  lemma ContinuedTwice(first: seq<Span>, second: seq<Span>, rest: Answer)
    ensures Continued(first, Continued(second, rest)) == Continued(first + second, rest)
  {
    assert first + (second + rest.lines) == (first + second) + rest.lines;
  }

  // A line as the caller sees it: without its newline and one carriage return.
  function Shown(data: Bytes, line: Span): Bytes
    requires line.start <= line.end <= |data|
  {
    TrimSuffix(TrimSuffix(data[line.start..line.end], '\n'), '\r')
  }

  function TrimSuffix(s: string, c: char): string {
    if s != "" && s[|s| - 1] == c then s[..|s| - 1] else s
  }

  // ---- What a line says ------------------------------------------------------

  // `text` is what a caller is given for the bytes of one line: all of them but the
  // newline and the one carriage return at the end, so far as they are there.
  ghost predicate IsTextOf(bytes: Bytes, text: Bytes) {
    var afterReturn := text != "" && text[|text| - 1] == '\r';
    && '\n' !in text
    && (|| bytes == text + "\r\n"
        || (bytes == text + "\n" && !afterReturn)
        || bytes == text + "\r"
        || (bytes == text && !afterReturn))
  }

  lemma {:induction false} OneNewline(data: Bytes, from: nat)
    requires from <= |data|
    ensures '\n' !in data[from..if LineEnd(data, from) > from then LineEnd(data, from) - 1 else from]
    decreases |data| - from
  {
    if from < |data| && data[from] != '\n' {
      OneNewline(data, from + 1);
      var end := LineEnd(data, from);
      assert data[from..end - 1] == if end - 1 == from then [] else [data[from]] + data[from + 1..end - 1];
    }
  }

  lemma ShownIsText(data: Bytes, line: Span)
    requires line.start <= line.end <= |data| && line.end <= LineEnd(data, line.start)
    ensures IsTextOf(data[line.start..line.end], Shown(data, line))
  {
    hide LineEnd, IsTextOf, TrimSuffix;
    var bytes := data[line.start..line.end];
    OneNewline(data, line.start);
    forall i | 0 <= i < |bytes| - 1
      ensures bytes[i] != '\n'
    {
      assert bytes[i] == data[line.start..LineEnd(data, line.start) - 1][i];
    }
    TrimmedText(bytes);
  }

  lemma TrimmedText(bytes: Bytes)
    requires forall i :: 0 <= i < |bytes| - 1 ==> bytes[i] != '\n'
    ensures IsTextOf(bytes, TrimSuffix(TrimSuffix(bytes, '\n'), '\r'))
  {
    var text := TrimSuffix(TrimSuffix(bytes, '\n'), '\r');
    assert bytes == text + bytes[|text|..];
  }

  // A line handed out is a whole line, or the unfinished end of a finished log.
  ghost predicate HandedOut(data: Bytes, size: nat, terminal: bool, line: Span) {
    && line.start < line.end <= |data| && line.end <= LineEnd(data, line.start)
    && (data[line.end - 1] == '\n' || (terminal && line.end == size))
  }

  lemma StopHandsOut(data: Bytes, size: nat, terminal: bool, at: nat, left: nat)
    requires at < |data| && left > 0
    ensures forall line :: line in Stop(data, size, terminal, at, left).lines ==> HandedOut(data, size, terminal, line)
  {
    hide ReadLine;
    ReadLineShape(data, at, left);
  }

  lemma {:induction false} DeliverHandsOut(data: Bytes, size: nat, terminal: bool, start: nat, at: nat, room: nat)
    requires start <= at <= |data|
    ensures forall line :: line in Deliver(data, size, terminal, start, at, room).lines ==> HandedOut(data, size, terminal, line)
    ensures |Deliver(data, size, terminal, start, at, room).lines| <= room
    decreases |data| - at
  {
    hide ReadLine, Stop, HandedOut;
    if room != 0 && at - start < BUDGET && at < |data| {
      var left := BUDGET - (at - start);
      ReadLineShape(data, at, left);
      var read := ReadLine(data, at, left);
      if read.Whole? && read.n <= left {
        DeliverHandsOut(data, size, terminal, start, at + read.n, room - 1);
        WholeHandedOut(data, size, terminal, at, at + read.n);
      } else {
        StopHandsOut(data, size, terminal, at, left);
        StopsOnce(data, size, terminal, at, left);
      }
    }
  }

  lemma WholeHandedOut(data: Bytes, size: nat, terminal: bool, at: nat, end: nat)
    requires at < |data| && at < end == LineEnd(data, at) && data[end - 1] == '\n'
    ensures HandedOut(data, size, terminal, Span(at, end))
  {
  }

  lemma StopsOnce(data: Bytes, size: nat, terminal: bool, at: nat, left: nat)
    requires at <= |data| && left > 0
    ensures |Stop(data, size, terminal, at, left).lines| <= 1
  {
  }

  // Of one whole read.
  lemma ReadHandsOut(data: Bytes, size: nat, terminal: bool, cursor: nat, limit: nat)
    requires cursor <= size <= |data|
    ensures forall line :: line in Read(data, size, terminal, cursor, limit).lines ==> HandedOut(data, size, terminal, line)
    ensures |Read(data, size, terminal, cursor, limit).lines| <= limit
  {
    hide Deliver, HandedOut;
    DeliverHandsOut(data, size, terminal, cursor, cursor, limit);
    ReadLineShape(data, cursor, BUDGET);
    match ReadLine(data, cursor, BUDGET)
    case Whole(n) => DeliverHandsOut(data, size, terminal, cursor, cursor + n, limit);
    case TooLong(n) =>
    case AtEnd(n) =>
  }
}
