// What a client that keeps passing the returned cursor gets, over many reads.
module LogTheorems {
  import opened LogLines

  // ---- Reading a finished log ------------------------------------------------

  // Between a line start and the end of its line no other line starts.
  lemma {:induction false} NoLineInside(data: Bytes, from: nat, other: nat)
    requires from <= |data| && from < other < LineEnd(data, from)
    ensures !LineStart(data, other)
    decreases |data| - from
  {
    if from + 1 < other {
      NoLineInside(data, from + 1, other);
    }
  }

  // The lines one read hands out from a line start are exactly those it passes
  // that end within the read's budget.
  ghost predicate Exact(data: Bytes, start: nat, at: nat, answer: Answer) {
    && Increasing(answer.lines)
    && forall line ::
      line in answer.lines <==>
        IsLine(data, line) && at <= line.start < answer.cursor && line.end <= start + BUDGET
  }

  lemma StopExact(data: Bytes, start: nat, at: nat)
    requires start <= at < |data| && LineStart(data, at) && at - start < BUDGET
    requires var left := BUDGET - (at - start); var read := ReadLine(data, at, left); read.Whole? ==> read.n > left
    ensures Exact(data, start, at, Stop(data, |data|, true, at, BUDGET - (at - start)))
  {
    var left := BUDGET - (at - start);
    ReadLineShape(data, at, left);
    var end := LineEnd(data, at);
    var answer := Stop(data, |data|, true, at, left);
    assert answer.cursor <= end;
    OnlyLineAt(data, at, answer.cursor);
    assert answer.lines == [] || answer.lines == [Span(at, end)];
    assert answer.cursor > at ==> (answer.lines == [Span(at, end)] <==> end - at <= left);
  }

  // Up to the end of the line starting at `at`, that line is the only one to start.
  lemma OnlyLineAt(data: Bytes, at: nat, upTo: nat)
    requires at < |data| && LineStart(data, at) && upTo <= LineEnd(data, at)
    ensures forall line :: IsLine(data, line) && at <= line.start < upTo ==> line == Span(at, LineEnd(data, at))
  {
    forall line | IsLine(data, line) && at < line.start < upTo
      ensures false
    {
      NoLineInside(data, at, line.start);
    }
  }

  lemma {:induction false} DeliverBounded(data: Bytes, start: nat, at: nat, room: nat)
    requires start <= at <= |data| && at <= start + BUDGET + BUFFER - 1
    ensures Deliver(data, |data|, true, start, at, room).cursor <= start + BUDGET + BUFFER - 1
    ensures room > 0 && at == start < |data| ==> Deliver(data, |data|, true, start, at, room).cursor > at
    decreases |data| - at
  {
    hide Deliver, ReadLine;
    DeliverUnfolds(data, |data|, true, start, at, room);
    if room != 0 && at - start < BUDGET && at < |data| {
      var left := BUDGET - (at - start);
      ReadLineShape(data, at, left);
      var read := ReadLine(data, at, left);
      if read.Whole? && read.n <= left {
        DeliverBounded(data, start, at + read.n, room - 1);
      }
    }
  }

  lemma {:induction false} DeliverExact(data: Bytes, start: nat, at: nat, room: nat)
    requires start <= at <= |data| && LineStart(data, at)
    ensures Exact(data, start, at, Deliver(data, |data|, true, start, at, room))
    decreases |data| - at
  {
    hide Deliver, ReadLine;
    DeliverUnfolds(data, |data|, true, start, at, room);
    if room != 0 && at - start < BUDGET && at < |data| {
      var left := BUDGET - (at - start);
      ReadLineShape(data, at, left);
      var read := ReadLine(data, at, left);
      if read.Whole? && read.n <= left {
        DeliverExact(data, start, at + read.n, room - 1);
        OnlyLineAt(data, at, at + read.n);
        PrependExact(data, start, at, at + read.n, Deliver(data, |data|, true, start, at + read.n, room - 1));
      } else {
        StopExact(data, start, at);
      }
    }
  }

  lemma PrependExact(data: Bytes, start: nat, at: nat, next: nat, rest: Answer)
    requires at < next <= |data| && IsLine(data, Span(at, next)) && next <= start + BUDGET && next <= rest.cursor
    requires forall line :: IsLine(data, line) && at <= line.start < next ==> line == Span(at, next)
    requires Exact(data, start, next, rest)
    ensures Exact(data, start, at, Answer([Span(at, next)] + rest.lines, rest.cursor))
  {
    var all := [Span(at, next)] + rest.lines;
    forall line
      ensures line in all <==> IsLine(data, line) && at <= line.start < rest.cursor && line.end <= start + BUDGET
    {
      assert line in all <==> line == Span(at, next) || line in rest.lines;
    }
    forall i | 0 <= i < |rest.lines|
      ensures next <= rest.lines[i].start && rest.lines[i].start < rest.lines[i].end
    {
      assert rest.lines[i] in rest.lines;
    }
  }

  lemma ReadExact(data: Bytes, cursor: nat, limit: nat)
    requires cursor <= |data| && limit > 0
    ensures Exact(data, cursor, cursor, Read(data, |data|, true, cursor, limit))
    ensures Read(data, |data|, true, cursor, limit).cursor <= cursor + BUDGET + BUFFER - 1
    ensures cursor < |data| ==> Read(data, |data|, true, cursor, limit).cursor > cursor
  {
    hide Deliver, ReadLine, Exact;
    if LineStart(data, cursor) {
      DeliverExact(data, cursor, cursor, limit);
      DeliverBounded(data, cursor, cursor, limit);
    } else {
      SkipExact(data, cursor, limit);
    }
  }

  // A read that begins inside a line.
  lemma SkipExact(data: Bytes, cursor: nat, limit: nat)
    requires cursor <= |data| && !LineStart(data, cursor) && limit > 0
    ensures Exact(data, cursor, cursor, Read(data, |data|, true, cursor, limit))
    ensures Read(data, |data|, true, cursor, limit).cursor <= cursor + BUDGET + BUFFER - 1
    ensures cursor < |data| ==> Read(data, |data|, true, cursor, limit).cursor > cursor
  {
    hide Deliver, ReadLine, Exact;
    ReadLineShape(data, cursor, BUDGET);
    var read := ReadLine(data, cursor, BUDGET);
    if read.Whole? {
      NextStart(data, cursor);
      DeliverExact(data, cursor, cursor + read.n, limit);
      DeliverBounded(data, cursor, cursor + read.n, limit);
      ExactFromEarlier(data, cursor, cursor + read.n, Deliver(data, |data|, true, cursor, cursor + read.n, limit));
    } else {
      NothingPassed(data, cursor, cursor + read.n);
    }
  }

  // Skipped bytes hold no line start.
  lemma ExactFromEarlier(data: Bytes, cursor: nat, next: nat, answer: Answer)
    requires cursor <= next <= |data| && !LineStart(data, cursor) && next <= LineEnd(data, cursor)
    requires Exact(data, cursor, next, answer)
    ensures Exact(data, cursor, cursor, answer)
  {
    forall line: Span
      ensures IsLine(data, line) && cursor <= line.start ==> next <= line.start
    {
      NoLineBefore(data, cursor, next, line);
    }
  }

  lemma NothingPassed(data: Bytes, cursor: nat, upTo: nat)
    requires cursor <= upTo <= |data| && !LineStart(data, cursor) && upTo <= LineEnd(data, cursor)
    ensures Exact(data, cursor, cursor, Answer([], upTo))
  {
    forall line: Span
      ensures IsLine(data, line) && cursor <= line.start ==> upTo <= line.start
    {
      NoLineBefore(data, cursor, upTo, line);
    }
  }

  // A client following the cursor, one limit per call.
  function Follow(data: Bytes, cursor: nat, limits: seq<nat>): (r: Answer)
    requires cursor <= |data|
    ensures cursor <= r.cursor <= |data|
    decreases |limits|
  {
    if limits == [] then Answer([], cursor)
    else
      var first := Read(data, |data|, true, cursor, limits[0]);
      var rest := Follow(data, first.cursor, limits[1..]);
      Answer(first.lines + rest.lines, rest.cursor)
  }

  // The cursor of the call that moves past `offset`.
  function PassedFrom(data: Bytes, cursor: nat, limits: seq<nat>, offset: nat): nat
    requires cursor <= |data|
    decreases |limits|
  {
    if limits == [] then cursor
    else
      var next := Read(data, |data|, true, cursor, limits[0]).cursor;
      if offset < next then cursor else PassedFrom(data, next, limits[1..], offset)
  }

  // Over any sequence of calls, the lines returned are in order and without
  // repetition, and a passed line is missing exactly when it ends beyond the
  // budget of the call that passed its start.
  lemma {:induction false} FollowExact(data: Bytes, cursor: nat, limits: seq<nat>)
    requires cursor <= |data| && forall i :: 0 <= i < |limits| ==> limits[i] > 0
    ensures Increasing(Follow(data, cursor, limits).lines)
    ensures forall line :: line in Follow(data, cursor, limits).lines <==>
      && IsLine(data, line) && cursor <= line.start < Follow(data, cursor, limits).cursor
      && line.end <= PassedFrom(data, cursor, limits, line.start) + BUDGET
    decreases |limits|
  {
    if limits != [] {
      ReadExact(data, cursor, limits[0]);
      var first := Read(data, |data|, true, cursor, limits[0]);
      FollowExact(data, first.cursor, limits[1..]);
      var rest := Follow(data, first.cursor, limits[1..]);
      var all := Follow(data, cursor, limits);
      assert all.lines == first.lines + rest.lines;
      forall line
        ensures line in all.lines <==>
          && IsLine(data, line) && cursor <= line.start < all.cursor
          && line.end <= PassedFrom(data, cursor, limits, line.start) + BUDGET
      {
        assert line in all.lines <==> line in first.lines || line in rest.lines;
      }
      forall i, j | 0 <= i < |first.lines| && 0 <= j < |rest.lines|
        ensures first.lines[i].end <= rest.lines[j].start && first.lines[i].start < first.lines[i].end
        ensures rest.lines[j].start < rest.lines[j].end
      {
        var early, late := first.lines[i], rest.lines[j];
        assert early in first.lines && late in rest.lines;
        if late.start < early.end {
          NoLineInside(data, early.start, late.start);
        }
      }
      forall i | 0 <= i < |all.lines|
        ensures all.lines[i].start < all.lines[i].end
      {
        assert all.lines[i] in first.lines || all.lines[i] in rest.lines;
      }
    }
  }

  // Reading ends: a log of n bytes is exhausted after at most n calls.
  lemma {:induction false} FollowReachesEnd(data: Bytes, cursor: nat, limits: seq<nat>)
    requires cursor <= |data| && forall i :: 0 <= i < |limits| ==> limits[i] > 0
    requires |limits| >= |data| - cursor
    ensures Follow(data, cursor, limits).cursor == |data|
    decreases |limits|
  {
    if limits != [] {
      ReadExact(data, cursor, limits[0]);
      FollowReachesEnd(data, Read(data, |data|, true, cursor, limits[0]).cursor, limits[1..]);
    }
  }

  // The plain claim "a line crossing the budget is dropped" is false for the
  // last line: without a newline and shorter than one buffer it is kept for the
  // next call.
  lemma ShortTailIsRetried(data: Bytes, start: nat, at: nat, room: nat)
    requires start <= at < |data| && LineStart(data, at) && room > 0 && at - start < BUDGET
    requires LineEnd(data, at) == |data| && data[|data| - 1] != '\n'
    requires |data| > start + BUDGET
    ensures (Deliver(data, |data|, true, start, at, room).cursor == at) <==> |data| - at < BUFFER
    ensures Deliver(data, |data|, true, start, at, room).lines == []
  {
    ReadLineShape(data, at, BUDGET - (at - start));
  }

  // While the job runs, a read at a line start stays there if and only if the
  // line is not complete yet or is longer than the budget.
  lemma LiveCursorExact(data: Bytes, size: nat, cursor: nat, limit: nat)
    requires cursor <= size <= |data| && LineStart(data, cursor) && limit > 0
    ensures
      var fits := cursor < |data| && data[LineEnd(data, cursor) - 1] == '\n' && LineEnd(data, cursor) - cursor <= BUDGET;
      var answer := Read(data, size, false, cursor, limit);
      && (answer.cursor == cursor <==> !fits)
      && (!fits ==> answer == Answer([], cursor))
  {
    ReadLineShape(data, cursor, BUDGET);
    WholeBuffers(256);
    if LineEnd(data, cursor) - cursor > BUDGET {
      FullBuffersMonotone(BUDGET, LineEnd(data, cursor) - cursor - 1);
    }
  }

  // A read that begins inside a line, of a finished or a growing log, passes over the
  // rest of that line or over a whole budget of it, and tells nothing of it.
  lemma InsideLineMoves(data: Bytes, size: nat, terminal: bool, cursor: nat, limit: nat)
    requires cursor <= size <= |data| && !LineStart(data, cursor) && limit > 0
    ensures
      var answer := Read(data, size, terminal, cursor, limit);
      && (answer.cursor >= LineEnd(data, cursor) || answer.cursor >= cursor + BUDGET)
      && forall line :: line in answer.lines ==> line.start >= LineEnd(data, cursor)
  {
    hide Deliver, ReadLine;
    ReadLineShape(data, cursor, BUDGET);
    match ReadLine(data, cursor, BUDGET)
    case Whole(n) => DeliveredAhead(data, size, terminal, cursor, cursor + n, limit);
    case TooLong(n) =>
    case AtEnd(n) =>
  }

  lemma {:induction false} DeliveredAhead(data: Bytes, size: nat, terminal: bool, start: nat, at: nat, room: nat)
    requires start <= at <= |data|
    ensures forall line :: line in Deliver(data, size, terminal, start, at, room).lines ==> line.start >= at
    decreases |data| - at
  {
    hide ReadLine, LineEnd;
    if room != 0 && at - start < BUDGET && at < |data| {
      var left := BUDGET - (at - start);
      ReadLineShape(data, at, left);
      var read := ReadLine(data, at, left);
      if read.Whole? && read.n <= left {
        DeliveredAhead(data, size, terminal, start, at + read.n, room - 1);
      }
    }
  }

  // ---- Which lines one read loses ---------------------------------------------------

  // The first line that starts at or after the cursor.
  function FirstStart(data: Bytes, cursor: nat): nat
    requires cursor <= |data|
  {
    if cursor == 0 || data[cursor - 1] == '\n' then cursor else LineEnd(data, cursor)
  }

  // `line` is one of the first `count` lines from `at` on.
  ghost predicate AmongFirst(data: Bytes, at: nat, count: nat, line: Span)
    decreases count
  {
    && count > 0 && at < |data|
    && (line == Span(at, LineEnd(data, at)) || AmongFirst(data, LineEnd(data, at), count - 1, line))
  }

  // The line starts within the budget of a call at `start` but is passed over. A
  // complete line: it ends beyond the budget, and on a live log its full buffers
  // still fit. A last line without newline is lost to terminal calls only: if it
  // ends beyond the budget and fills a buffer; or, when the file grew during the
  // call, if its full buffers use up what is left.
  ghost predicate Loses(data: Bytes, size: nat, terminal: bool, start: nat, line: Span) {
    && line.start < start + BUDGET && line.start < line.end <= |data|
    && var left, length := start + BUDGET - line.start, line.end - line.start;
    if data[line.end - 1] == '\n' then length > left && (terminal || FullBuffers(length - 1) < left)
    else terminal && if size == |data| then length > left && length >= BUFFER else FullBuffers(length) >= left
  }

  ghost predicate LostBy(data: Bytes, at: nat, answer: Answer, line: Span) {
    IsLine(data, line) && at <= line.start < answer.cursor && line !in answer.lines
  }

  lemma {:induction false} AmongFirstShape(data: Bytes, at: nat, count: nat, line: Span)
    requires at <= |data| && LineStart(data, at) && AmongFirst(data, at, count, line)
    ensures IsLine(data, line) && at <= line.start
    decreases count
  {
    if line != Span(at, LineEnd(data, at)) {
      AmongFirstShape(data, LineEnd(data, at), count - 1, line);
    }
  }

  lemma StopLoses(data: Bytes, size: nat, terminal: bool, start: nat, at: nat, room: nat, line: Span)
    requires start <= at < |data| && LineStart(data, at) && at - start < BUDGET && room > 0 && size <= |data|
    requires var left := BUDGET - (at - start); var read := ReadLine(data, at, left); read.Whole? ==> read.n > left
    ensures LostBy(data, at, Stop(data, size, terminal, at, BUDGET - (at - start)), line) <==>
      AmongFirst(data, at, room, line) && Loses(data, size, terminal, start, line)
  {
    hide IsLine;
    var left, end := BUDGET - (at - start), LineEnd(data, at);
    var answer := Stop(data, size, terminal, at, left);
    ReadLineShape(data, at, left);
    OnlyLineAt(data, at, answer.cursor);
    FirstIsLine(data, at);
    if AmongFirst(data, at, room, line) && line != Span(at, end) {
      LaterStarts(data, at, room, line);
      assert end < |data| ==> end > start + BUDGET;
    }
  }

  lemma FirstIsLine(data: Bytes, at: nat)
    requires at < |data| && LineStart(data, at)
    ensures IsLine(data, Span(at, LineEnd(data, at)))
  {
  }

  lemma LaterStarts(data: Bytes, at: nat, count: nat, line: Span)
    requires at < |data| && AmongFirst(data, at, count, line) && line != Span(at, LineEnd(data, at))
    ensures LineEnd(data, at) < |data| && LineEnd(data, at) <= line.start
  {
    AmongFirstShape(data, LineEnd(data, at), count - 1, line);
  }

  lemma {:induction false} DeliverLoses(
    data: Bytes, size: nat, terminal: bool, start: nat, at: nat, room: nat, line: Span)
    requires start <= at <= |data| && LineStart(data, at) && size <= |data|
    ensures LostBy(data, at, Deliver(data, size, terminal, start, at, room), line) <==>
      AmongFirst(data, at, room, line) && Loses(data, size, terminal, start, line)
    decreases |data| - at
  {
    hide Deliver, ReadLine, IsLine, LineStart, Stop, FullBuffers;
    DeliverUnfolds(data, size, terminal, start, at, room);
    if room == 0 || at - start >= BUDGET || at == |data| {
      if AmongFirst(data, at, room, line) {
        AmongFirstShape(data, at, room, line);
      }
    } else {
      var left := BUDGET - (at - start);
      ReadLineShape(data, at, left);
      var read := ReadLine(data, at, left);
      if read.Whole? && read.n <= left {
        var next := at + read.n;
        NextStart(data, at);
        FirstIsLine(data, at);
        OnlyLineAt(data, at, next);
        DeliverLoses(data, size, terminal, start, next, room - 1, line);
        if AmongFirst(data, next, room - 1, line) {
          AmongFirstShape(data, next, room - 1, line);
        }
      } else {
        StopLoses(data, size, terminal, start, at, room, line);
      }
    }
  }

  lemma NextStart(data: Bytes, at: nat)
    requires at < |data| && data[LineEnd(data, at) - 1] == '\n'
    ensures LineStart(data, LineEnd(data, at))
  {
  }

  // Decided before the call, for finished and growing logs: a read loses exactly
  // those of the first `limit` lines from its cursor that Loses names.
  lemma ReadLosesExactly(data: Bytes, size: nat, terminal: bool, cursor: nat, limit: nat, line: Span)
    requires cursor <= size <= |data| && limit > 0
    ensures LostBy(data, cursor, Read(data, size, terminal, cursor, limit), line) <==>
      AmongFirst(data, FirstStart(data, cursor), limit, line) && Loses(data, size, terminal, cursor, line)
  {
    hide Deliver, ReadLine, IsLine, FullBuffers;
    if LineStart(data, cursor) {
      DeliverLoses(data, size, terminal, cursor, cursor, limit, line);
    } else {
      ReadLineShape(data, cursor, BUDGET);
      var read := ReadLine(data, cursor, BUDGET);
      NoLineBefore(data, cursor, cursor + read.n, line);
      if read.Whole? {
        NextStart(data, cursor);
        DeliverLoses(data, size, terminal, cursor, FirstStart(data, cursor), limit, line);
        if AmongFirst(data, FirstStart(data, cursor), limit, line) {
          AmongFirstShape(data, FirstStart(data, cursor), limit, line);
        }
      } else {
        LateStart(data, cursor, limit, line);
      }
    }
  }

  // Inside a line no line starts before that line's end.
  lemma NoLineBefore(data: Bytes, cursor: nat, upTo: nat, line: Span)
    requires cursor <= |data| && !LineStart(data, cursor) && upTo <= LineEnd(data, cursor)
    ensures IsLine(data, line) && cursor <= line.start ==> upTo <= line.start
  {
    if IsLine(data, line) && cursor < line.start < upTo {
      NoLineInside(data, cursor, line.start);
    }
  }

  // A read that ends while skipping has no line within its budget.
  lemma LateStart(data: Bytes, cursor: nat, limit: nat, line: Span)
    requires cursor <= |data| && !LineStart(data, cursor) && !ReadLine(data, cursor, BUDGET).Whole?
    ensures AmongFirst(data, FirstStart(data, cursor), limit, line) ==> cursor + BUDGET <= line.start
  {
    hide ReadLine, IsLine;
    ReadLineShape(data, cursor, BUDGET);
    if AmongFirst(data, FirstStart(data, cursor), limit, line) {
      NextStart(data, cursor);
      AmongFirstShape(data, FirstStart(data, cursor), limit, line);
    }
  }

  function Run(c: char, n: nat): (r: Bytes)
    ensures |r| == n && forall i :: 0 <= i < n ==> r[i] == c
  {
    seq(n, _ => c)
  }

  lemma {:induction false} LineEndOf(data: Bytes, from: nat, newline: nat)
    requires from <= newline < |data| && data[newline] == '\n' && forall i :: from <= i < newline ==> data[i] != '\n'
    ensures LineEnd(data, from) == newline + 1
    decreases newline - from
  {
    if from < newline {
      LineEndOf(data, from + 1, newline);
    }
  }

  // The comment that only oversized lines are skipped is false: after a line of
  // 1,000,001 bytes one of 100,001 bytes, a tenth of the budget, is lost.
  lemma ShorterLineIsLost()
    ensures
      var data := Run('a', 1_000_000) + "\n" + Run('b', 100_000) + "\n";
      var second := Span(1_000_001, 1_100_002);
      && IsLine(data, second) && second.end - second.start < BUDGET
      && LostBy(data, 0, Read(data, |data|, true, 0, 80), second)
  {
    hide Run, Read, ReadLine;
    var data := Run('a', 1_000_000) + "\n" + Run('b', 100_000) + "\n";
    var second := Span(1_000_001, 1_100_002);
    assert forall i :: 0 <= i < 1_000_000 ==> data[i] == 'a';
    assert data[1_000_000] == '\n';
    assert forall i :: 1_000_001 <= i < 1_100_001 ==> data[i] == 'b';
    assert data[1_100_001] == '\n';
    LineEndOf(data, 0, 1_000_000);
    LineEndOf(data, 1_000_001, 1_100_001);
    assert AmongFirst(data, 1_000_001, 79, second);
    assert AmongFirst(data, 0, 80, second);
    ReadLosesExactly(data, |data|, true, 0, 80, second);
  }

  // A live read loses short complete lines as well: here one of 1,001 bytes.
  lemma LiveLineIsLost()
    ensures
      var data := Run('a', 1_048_000) + "\n" + Run('b', 1_000) + "\n";
      var second := Span(1_048_001, 1_049_002);
      && IsLine(data, second)
      && LostBy(data, 0, Read(data, |data|, false, 0, 80), second)
  {
    hide Run, Read, ReadLine;
    var data := Run('a', 1_048_000) + "\n" + Run('b', 1_000) + "\n";
    var second := Span(1_048_001, 1_049_002);
    assert forall i :: 0 <= i < 1_048_000 ==> data[i] == 'a';
    assert data[1_048_000] == '\n';
    assert forall i :: 1_048_001 <= i < 1_049_001 ==> data[i] == 'b';
    assert data[1_049_001] == '\n';
    LineEndOf(data, 0, 1_048_000);
    LineEndOf(data, 1_048_001, 1_049_001);
    assert AmongFirst(data, 1_048_001, 79, second);
    assert AmongFirst(data, 0, 80, second);
    ReadLosesExactly(data, |data|, false, 0, 80, second);
  }

  // ---- Following a growing log ------------------------------------------------

  // All lines from `from` on: the plain split at newlines.
  function AllLines(data: Bytes, from: nat): seq<Span>
    requires from <= |data|
    decreases |data| - from
  {
    if from == |data| then []
    else [Span(from, LineEnd(data, from))] + AllLines(data, LineEnd(data, from))
  }

  lemma {:induction false} LineEndStable(data: Bytes, final: Bytes, from: nat)
    requires data <= final && from <= |data|
    requires from < LineEnd(data, from) && data[LineEnd(data, from) - 1] == '\n'
    ensures LineEnd(final, from) == LineEnd(data, from)
    decreases |data| - from
  {
    if data[from] != '\n' {
      LineEndStable(data, final, from + 1);
    }
  }

  // One read of a job's log: the bytes it could see, the size it observed
  // first, whether the recorded state was already terminal, and the limit.
  datatype Call = Call(data: Bytes, size: nat, terminal: bool, limit: nat)

  // Append-only growth up to `final`. The recorded state may turn terminal before
  // the last bytes are there: `finish` commits it and appends to the log afterwards.
  ghost predicate Growing(final: Bytes, calls: seq<Call>) {
    && (forall i :: 0 <= i < |calls| ==>
      calls[i].data <= final && calls[i].size <= |calls[i].data| && calls[i].limit > 0)
    && (forall i, j :: 0 <= i < j < |calls| ==> |calls[i].data| <= calls[j].size)
  }

  ghost predicate Visible(cursor: nat, calls: seq<Call>) {
    forall i :: 0 <= i < |calls| ==> cursor <= calls[i].size
  }

  function Poll(final: Bytes, cursor: nat, calls: seq<Call>): (r: Answer)
    requires Growing(final, calls) && Visible(cursor, calls) && cursor <= |final|
    ensures cursor <= r.cursor <= |final|
    decreases |calls|
  {
    if calls == [] then Answer([], cursor)
    else
      var call := calls[0];
      var first := Read(call.data, call.size, call.terminal, cursor, call.limit);
      var rest := Poll(final, first.cursor, calls[1..]);
      Answer(first.lines + rest.lines, rest.cursor)
  }

  ghost predicate Boundary(final: Bytes, cursor: nat) {
    LineStart(final, cursor) || cursor == |final|
  }

  // What was returned and what is left make up the lines from `at` on.
  ghost predicate Rebuilt(final: Bytes, at: nat, answer: Answer)
    requires at <= |final|
  {
    && answer.cursor <= |final| && Boundary(final, answer.cursor)
    && answer.lines + AllLines(final, answer.cursor) == AllLines(final, at)
  }

  // A visible last line, without newline yet, at which a terminal read goes wrong:
  // it is not the log's last line and is returned cut, or it fills the budget to
  // its last byte while the file grew during the call, and is passed over.
  ghost predicate CutsShort(final: Bytes, data: Bytes, size: nat, start: nat, line: Span) {
    && line.start < line.end == |data| && data[|data| - 1] != '\n'
    && ((size == |data| && |data| < |final|)
        || (size < |data| && |data| == start + BUDGET && FullBuffers(line.end - line.start) == line.end - line.start))
  }

  // Decided before the call: the read is terminal and gets as far as such a line.
  ghost predicate Spoils(final: Bytes, data: Bytes, size: nat, terminal: bool, start: nat, at: nat, room: nat) {
    terminal && exists line :: AmongFirst(data, at, room, line) && CutsShort(final, data, size, start, line)
  }

  // The last attempt of a read whose budget reaches to the end of what it sees.
  lemma StopOutcome(data: Bytes, size: nat, terminal: bool, start: nat, at: nat)
    requires start <= at < |data| <= start + BUDGET && at < start + BUDGET && size <= |data|
    requires !ReadLine(data, at, BUDGET - (at - start)).Whole?
    ensures LineEnd(data, at) == |data| && data[|data| - 1] != '\n'
    ensures
      var n := |data| - at;
      Stop(data, size, terminal, at, BUDGET - (at - start)) ==
        if terminal && size == |data| then Answer([Span(at, |data|)], |data|)
        else if terminal && |data| == start + BUDGET && FullBuffers(n) == n then Answer([], |data|)
        else Answer([], at)
  {
    ReadLineShape(data, at, BUDGET - (at - start));
  }

  // Every span of the rest of a log is one of its lines, and every line is there.
  lemma {:induction false} AllLinesAre(final: Bytes, from: nat, line: Span)
    requires from <= |final| && Boundary(final, from)
    ensures line in AllLines(final, from) <==> IsLine(final, line) && from <= line.start
    decreases |final| - from
  {
    hide IsLine;
    if from < |final| {
      var next := LineEnd(final, from);
      FirstIsLine(final, from);
      OnlyLineAt(final, from, next);
      assert Boundary(final, next);
      AllLinesAre(final, next, line);
      IsLineInside(final, line);
    } else {
      IsLineInside(final, line);
    }
  }

  lemma IsLineInside(data: Bytes, line: Span)
    ensures IsLine(data, line) ==> line.start < |data| && LineStart(data, line.start) && line.end == LineEnd(data, line.start)
  {
  }

  // An answer that can never become part of the whole log: it holds a span that is
  // no line, or it has passed the last line without returning it.
  ghost predicate Spoiled(final: Bytes, at: nat, answer: Answer) {
    || (exists line :: line in answer.lines && !IsLine(final, line))
    || (answer.cursor == |final| && exists line :: IsLine(final, line) && at <= line.start && line !in answer.lines)
  }

  lemma SpoiledIsNotRebuilt(final: Bytes, at: nat, answer: Answer)
    requires at <= |final| && Boundary(final, at) && Spoiled(final, at, answer)
    ensures !Rebuilt(final, at, answer)
  {
    hide IsLine;
    if Rebuilt(final, at, answer) {
      forall line
        ensures line in AllLines(final, at) <==> IsLine(final, line) && at <= line.start
      {
        AllLinesAre(final, at, line);
      }
      assert forall line :: line in answer.lines ==> line in answer.lines + AllLines(final, answer.cursor);
      assert false;
    }
  }

  lemma PrependRebuilt(final: Bytes, at: nat, next: nat, rest: Answer)
    requires at < next <= |final| && next == LineEnd(final, at) && Rebuilt(final, next, rest)
    ensures Rebuilt(final, at, Answer([Span(at, next)] + rest.lines, rest.cursor))
  {
    assert [Span(at, next)] + rest.lines + AllLines(final, rest.cursor)
      == [Span(at, next)] + (rest.lines + AllLines(final, rest.cursor));
  }

  lemma PrependSpoiled(final: Bytes, at: nat, next: nat, rest: Answer)
    requires at < next <= |final| && Spoiled(final, next, rest)
    ensures Spoiled(final, at, Answer([Span(at, next)] + rest.lines, rest.cursor))
  {
    hide IsLine;
    var all := Answer([Span(at, next)] + rest.lines, rest.cursor);
    if line :| line in rest.lines && !IsLine(final, line) {
      assert line in all.lines;
    } else {
      var line :| IsLine(final, line) && next <= line.start && line !in rest.lines;
      assert line !in all.lines;
    }
  }

  // The last attempt of a read: right or spoiled, as decided before.
  lemma StopReassembles(final: Bytes, data: Bytes, size: nat, terminal: bool, start: nat, at: nat, room: nat)
    requires |final| <= BUDGET && data <= final && size <= |data| && room > 0
    requires start <= at < |data| && at < start + BUDGET && LineStart(final, at)
    requires !ReadLine(data, at, BUDGET - (at - start)).Whole?
    ensures
      var answer := Stop(data, size, terminal, at, BUDGET - (at - start));
      if Spoils(final, data, size, terminal, start, at, room) then Spoiled(final, at, answer) else Rebuilt(final, at, answer)
  {
    hide ReadLine, Stop, IsLine;
    StopOutcome(data, size, terminal, start, at);
    var tail, answer := Span(at, |data|), Stop(data, size, terminal, at, BUDGET - (at - start));
    assert AmongFirst(data, at, room, tail);
    assert forall line :: AmongFirst(data, at, room, line) ==> line == tail;
    assert Spoils(final, data, size, terminal, start, at, room) <==> terminal && CutsShort(final, data, size, start, tail);
    if |data| < |final| {
      Unfinished(final, data, at);
    } else {
      assert data == final;
      FirstIsLine(final, at);
      assert AllLines(final, at) == [tail] + AllLines(final, |final|);
    }
    if terminal && CutsShort(final, data, size, start, tail) {
      if size == |data| {
        assert tail in answer.lines;
      } else {
        assert tail !in answer.lines && answer.cursor == |final|;
      }
    }
  }

  // More bytes belong to the line whose visible part has no newline.
  lemma Unfinished(final: Bytes, data: Bytes, at: nat)
    requires at < |data| < |final| && data <= final && LineEnd(data, at) == |data| && data[|data| - 1] != '\n'
    ensures !IsLine(final, Span(at, |data|))
  {
    assert final[|data| - 1] == data[|data| - 1];
  }

  lemma {:induction false} DeliverReassembles(
    final: Bytes, data: Bytes, size: nat, terminal: bool, start: nat, at: nat, room: nat, answer: Answer)
    requires |final| <= BUDGET && data <= final && size <= |data|
    requires start <= at <= |data| && LineStart(final, at)
    requires answer == Deliver(data, size, terminal, start, at, room)
    ensures if Spoils(final, data, size, terminal, start, at, room) then Spoiled(final, at, answer) else Rebuilt(final, at, answer)
    decreases |data| - at
  {
    hide Deliver, ReadLine, Stop, CutsShort, Spoiled, Rebuilt;
    DeliverUnfolds(data, size, terminal, start, at, room);
    if room == 0 || at - start >= BUDGET || at == |data| {
      NothingRead(final, data, size, terminal, start, at, room);
    } else {
      var left := BUDGET - (at - start);
      ReadLineShape(data, at, left);
      var read := ReadLine(data, at, left);
      if read.Whole? {
        var next := at + read.n;
        LineEndStable(data, final, at);
        assert data[next - 1] == final[next - 1];
        var rest := Deliver(data, size, terminal, start, next, room - 1);
        DeliverReassembles(final, data, size, terminal, start, next, room - 1, rest);
        SpoilsLater(final, data, size, terminal, start, at, room);
        if Spoils(final, data, size, terminal, start, at, room) {
          PrependSpoiled(final, at, next, rest);
        } else {
          PrependRebuilt(final, at, next, rest);
        }
      } else {
        StopReassembles(final, data, size, terminal, start, at, room);
      }
    }
  }

  lemma NothingRead(final: Bytes, data: Bytes, size: nat, terminal: bool, start: nat, at: nat, room: nat)
    requires |final| <= BUDGET && data <= final && start <= at <= |data| && LineStart(final, at)
    requires room == 0 || at - start >= BUDGET || at == |data|
    ensures !Spoils(final, data, size, terminal, start, at, room) && Rebuilt(final, at, Answer([], at))
  {
  }

  // A complete first line spoils nothing.
  lemma SpoilsLater(final: Bytes, data: Bytes, size: nat, terminal: bool, start: nat, at: nat, room: nat)
    requires at < |data| && room > 0 && data[LineEnd(data, at) - 1] == '\n'
    ensures Spoils(final, data, size, terminal, start, at, room)
      <==> Spoils(final, data, size, terminal, start, LineEnd(data, at), room - 1)
  {
    var first := Span(at, LineEnd(data, at));
    assert !CutsShort(final, data, size, start, first);
    forall line
      ensures AmongFirst(data, at, room, line) <==> line == first || AmongFirst(data, LineEnd(data, at), room - 1, line)
    {
    }
  }

  // Whether a call spoils what is put together from the answers.
  ghost predicate SpoilingCall(final: Bytes, call: Call, cursor: nat) {
    && (cursor == 0 || (cursor <= |final| && final[cursor - 1] == '\n'))
    && Spoils(final, call.data, call.size, call.terminal, cursor, cursor, call.limit)
  }

  lemma ReadReassembles(final: Bytes, call: Call, cursor: nat)
    requires |final| <= BUDGET && Growing(final, [call])
    requires cursor <= call.size <= |call.data| && Boundary(final, cursor)
    ensures
      var answer := Read(call.data, call.size, call.terminal, cursor, call.limit);
      if SpoilingCall(final, call, cursor) then Spoiled(final, cursor, answer) else Rebuilt(final, cursor, answer)
  {
    hide Deliver, Spoils, Spoiled;
    assert [call][0] == call;
    if LineStart(final, cursor) {
      if cursor > 0 {
        assert call.data[cursor - 1] == final[cursor - 1];
      }
      DeliverReassembles(final, call.data, call.size, call.terminal, cursor, cursor, call.limit,
        Deliver(call.data, call.size, call.terminal, cursor, cursor, call.limit));
    }
  }

  // Some call of the sequence is made when it spoils the result.
  ghost predicate SomeSpoils(final: Bytes, cursor: nat, calls: seq<Call>)
    requires Growing(final, calls) && Visible(cursor, calls) && cursor <= |final|
    decreases |calls|
  {
    calls != []
    && (SpoilingCall(final, calls[0], cursor)
        || SomeSpoils(final, Read(calls[0].data, calls[0].size, calls[0].terminal, cursor, calls[0].limit).cursor, calls[1..]))
  }

  // What has been returned plus what is left is the whole log, split at newlines,
  // nothing lost, repeated or reordered, live or finished: if and only if no call
  // spoils it.
  lemma {:induction false} PollReassembles(final: Bytes, cursor: nat, calls: seq<Call>)
    requires |final| <= BUDGET && Growing(final, calls) && Visible(cursor, calls)
    requires cursor <= |final| && Boundary(final, cursor)
    ensures Rebuilt(final, cursor, Poll(final, cursor, calls)) <==> !SomeSpoils(final, cursor, calls)
    ensures SomeSpoils(final, cursor, calls) ==> Spoiled(final, cursor, Poll(final, cursor, calls))
    decreases |calls|
  {
    hide Read, SpoilingCall, Spoiled, Rebuilt, AllLines;
    if calls != [] {
      assert Growing(final, [calls[0]]);
      ReadReassembles(final, calls[0], cursor);
      var first := Read(calls[0].data, calls[0].size, calls[0].terminal, cursor, calls[0].limit);
      var rest := Poll(final, first.cursor, calls[1..]);
      assert Poll(final, cursor, calls) == Answer(first.lines + rest.lines, rest.cursor);
      if SpoilingCall(final, calls[0], cursor) {
        SpoiledStays(final, cursor, first, calls[1..]);
        SpoiledIsNotRebuilt(final, cursor, Poll(final, cursor, calls));
      } else {
        RebuiltBoundary(final, cursor, first);
        PollReassembles(final, first.cursor, calls[1..]);
        if SomeSpoils(final, first.cursor, calls[1..]) {
          SpoiledAfter(final, cursor, first, rest);
          SpoiledIsNotRebuilt(final, cursor, Poll(final, cursor, calls));
        } else {
          RebuiltThen(final, cursor, first, rest);
        }
      }
    } else {
      RebuiltSelf(final, cursor);
    }
  }

  lemma RebuiltBoundary(final: Bytes, at: nat, answer: Answer)
    requires at <= |final| && Rebuilt(final, at, answer)
    ensures answer.cursor <= |final| && Boundary(final, answer.cursor)
  {
  }

  lemma RebuiltSelf(final: Bytes, at: nat)
    requires at <= |final| && Boundary(final, at)
    ensures Rebuilt(final, at, Answer([], at))
  {
    assert [] + AllLines(final, at) == AllLines(final, at);
  }

  lemma RebuiltThen(final: Bytes, at: nat, first: Answer, rest: Answer)
    requires at <= |final| && Rebuilt(final, at, first) && Rebuilt(final, first.cursor, rest)
    ensures Rebuilt(final, at, Answer(first.lines + rest.lines, rest.cursor))
  {
    assert first.lines + rest.lines + AllLines(final, rest.cursor)
      == first.lines + (rest.lines + AllLines(final, rest.cursor));
  }

  // No later answer mends a spoiled one ...
  lemma SpoiledStays(final: Bytes, at: nat, first: Answer, calls: seq<Call>)
    requires first.cursor <= |final| && Growing(final, calls) && Visible(first.cursor, calls) && Spoiled(final, at, first)
    ensures
      var rest := Poll(final, first.cursor, calls);
      Spoiled(final, at, Answer(first.lines + rest.lines, rest.cursor))
  {
    hide IsLine;
    var rest := Poll(final, first.cursor, calls);
    var all := first.lines + rest.lines;
    if line :| line in first.lines && !IsLine(final, line) {
      assert line in all;
    } else {
      PollAtEnd(final, calls);
      assert all == first.lines;
    }
  }

  // ... and no earlier one does.
  lemma SpoiledAfter(final: Bytes, at: nat, first: Answer, rest: Answer)
    requires at <= first.cursor <= |final| && Boundary(final, at) && Rebuilt(final, at, first) && Spoiled(final, first.cursor, rest)
    ensures Spoiled(final, at, Answer(first.lines + rest.lines, rest.cursor))
  {
    hide IsLine;
    var all := first.lines + rest.lines;
    if line :| line in rest.lines && !IsLine(final, line) {
      assert line in all;
    } else {
      var line :| IsLine(final, line) && first.cursor <= line.start && line !in rest.lines;
      BeforeCursor(final, at, first, line);
      assert line !in all;
    }
  }

  // The lines returned so far start before the cursor.
  lemma BeforeCursor(final: Bytes, at: nat, first: Answer, line: Span)
    requires at <= first.cursor <= |final| && Rebuilt(final, at, first) && first.cursor <= line.start
    ensures line !in first.lines
  {
    if k :| 0 <= k < |first.lines| && first.lines[k] == line {
      AllLinesGrow(final, at, first.lines, first.cursor, k);
    }
  }

  lemma {:induction false} AllLinesGrow(final: Bytes, at: nat, lines: seq<Span>, cursor: nat, k: nat)
    requires at <= |final| && cursor <= |final| && lines + AllLines(final, cursor) == AllLines(final, at) && k < |lines|
    ensures lines[k].start < cursor
    decreases |lines|
  {
    assert lines[0] == (lines + AllLines(final, cursor))[0] == Span(at, LineEnd(final, at));
    var rest := lines[1..];
    assert (lines + AllLines(final, cursor))[1..] == rest + AllLines(final, cursor);
    if k > 0 {
      AllLinesGrow(final, LineEnd(final, at), rest, cursor, k - 1);
    } else {
      AllLinesAhead(final, LineEnd(final, at), rest, cursor);
    }
  }

  lemma {:induction false} AllLinesAhead(final: Bytes, at: nat, lines: seq<Span>, cursor: nat)
    requires at <= |final| && cursor <= |final| && lines + AllLines(final, cursor) == AllLines(final, at)
    ensures at <= cursor
    decreases |lines|
  {
    if lines != [] {
      assert lines[0] == (lines + AllLines(final, cursor))[0];
      assert (lines + AllLines(final, cursor))[1..] == lines[1..] + AllLines(final, cursor);
      AllLinesAhead(final, LineEnd(final, at), lines[1..], cursor);
    } else {
      assert lines + AllLines(final, cursor) == AllLines(final, cursor);
      if cursor < |final| {
        assert AllLines(final, cursor)[0].start == cursor && AllLines(final, at)[0].start == at;
      }
    }
  }

  // At the end nothing more is returned.
  lemma {:induction false} PollAtEnd(final: Bytes, calls: seq<Call>)
    requires Growing(final, calls) && Visible(|final|, calls)
    ensures Poll(final, |final|, calls) == Answer([], |final|)
    decreases |calls|
  {
    if calls != [] {
      assert calls[0].data == final;
      PollAtEnd(final, calls[1..]);
    }
  }

  // The call is not terminal too early: with a terminal state the visible bytes end
  // where a line of the final log does, and the file did not grow during the call
  // to the last byte of the budget.
  ghost predicate Settled(final: Bytes, call: Call) {
    call.terminal ==> Boundary(final, |call.data|) && (call.size == |call.data| || |call.data| < BUDGET)
  }

  lemma {:induction false} SettledCallsAreRight(final: Bytes, cursor: nat, calls: seq<Call>)
    requires Growing(final, calls) && Visible(cursor, calls) && cursor <= |final|
    requires forall i :: 0 <= i < |calls| ==> Settled(final, calls[i])
    ensures !SomeSpoils(final, cursor, calls)
    decreases |calls|
  {
    hide Read;
    if calls != [] {
      var call := calls[0];
      SettledCallsAreRight(final, Read(call.data, call.size, call.terminal, cursor, call.limit).cursor, calls[1..]);
    }
  }

  // A call on the finished log with its terminal state.
  ghost predicate OnFinal(final: Bytes, call: Call) {
    call.terminal && call.data == final && call.size == |final|
  }

  // Enough reads of the finished log always reach its end.
  lemma {:induction false} PollReachesEnd(final: Bytes, cursor: nat, calls: seq<Call>, tail: nat)
    requires Growing(final, calls) && Visible(cursor, calls) && cursor <= |final|
    requires |final| - cursor <= tail <= |calls|
    requires forall i :: |calls| - tail <= i < |calls| ==> OnFinal(final, calls[i])
    ensures Poll(final, cursor, calls).cursor == |final|
    decreases |calls|
  {
    hide Read;
    if calls != [] {
      var call := calls[0];
      var next := Read(call.data, call.size, call.terminal, cursor, call.limit).cursor;
      if tail == |calls| {
        ReadExact(final, cursor, call.limit);
        PollReachesEnd(final, next, calls[1..], if tail > 0 then tail - 1 else 0);
      } else {
        PollReachesEnd(final, next, calls[1..], tail);
      }
    }
  }

  // The whole promise for logs within the budget: any reads of the growing log,
  // followed by enough reads of the finished one, return exactly the final log's
  // lines, if and only if none of them was terminal too early.
  lemma LogReassembled(final: Bytes, calls: seq<Call>, tail: nat)
    requires |final| <= BUDGET && Growing(final, calls) && |final| <= tail <= |calls|
    requires forall i :: |calls| - tail <= i < |calls| ==> OnFinal(final, calls[i])
    ensures Poll(final, 0, calls) == Answer(AllLines(final, 0), |final|) <==> !SomeSpoils(final, 0, calls)
  {
    PollReassembles(final, 0, calls);
    PollReachesEnd(final, 0, calls, tail);
  }

  lemma FirstEarlyRead()
    ensures Read("abc", 3, true, 0, 80) == Answer([Span(0, 3)], 3) && LineEnd("abc", 0) == 3
  {
    var data: Bytes := "abc";
    assert LineEnd(data, 2) == 3 && LineEnd(data, 1) == 3 && LineEnd(data, 0) == 3;
    assert FullBuffers(3) == 0;
    assert ReadLine(data, 0, BUDGET) == AtEnd(3);
    DeliverUnfolds(data, 3, true, 0, 0, 80);
  }

  lemma SecondEarlyRead()
    ensures Read("abcEND\nx\n", 9, true, 3, 80) == Answer([Span(7, 9)], 9)
  {
    var data: Bytes := "abcEND\nx\n";
    LineEndOf(data, 3, 6);
    LineEndOf(data, 7, 8);
    assert FullBuffers(3) == 0 && FullBuffers(1) == 0;
    assert ReadLine(data, 3, BUDGET) == Whole(4);
    assert ReadLine(data, 7, BUDGET - 4) == Whole(2);
    DeliverUnfolds(data, 9, true, 3, 7, 80);
    DeliverUnfolds(data, 9, true, 3, 9, 79);
  }

  // The order of `finish` shows: read between the terminal state and the last
  // append, a log answers with half a line, and the next read drops the other half.
  lemma TerminalTooEarly()
    ensures
      var final, calls := "abcEND\nx\n", [Call("abc", 3, true, 80), Call("abcEND\nx\n", 9, true, 80)];
      && Growing(final, calls) && SomeSpoils(final, 0, calls)
      && Poll(final, 0, calls) == Answer([Span(0, 3), Span(7, 9)], 9)
      && AllLines(final, 0) == [Span(0, 7), Span(7, 9)]
  {
    hide Read, Deliver, ReadLine, Stop;
    var final: Bytes := "abcEND\nx\n";
    var calls := [Call("abc", 3, true, 80), Call(final, 9, true, 80)];
    FirstEarlyRead();
    SecondEarlyRead();
    LineEndOf(final, 0, 6);
    LineEndOf(final, 7, 8);
    assert AllLines(final, 9) == [] && AllLines(final, 7) == [Span(7, 9)];
    assert AmongFirst("abc", 0, 80, Span(0, 3));
    assert CutsShort(final, "abc", 3, 0, Span(0, 3));
    assert SpoilingCall(final, calls[0], 0);
    assert calls[1..] == [Call(final, 9, true, 80)];
    assert calls[1..][1..] == [];
    assert Poll(final, 9, calls[1..][1..]) == Answer([], 9);
    assert Poll(final, 3, calls[1..]) == Answer([Span(7, 9)], 9);
  }
}
