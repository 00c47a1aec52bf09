// internal/bitci/controller.go, redactLogLine: secrets removed from a log line,
// and exactly when none can be left.
module Redaction {
  import opened Configuration

  const MARKER := "[REDACTED]"

  // strings.ReplaceAll for a non-empty value.
  function ReplaceAll(line: string, value: string): string
    requires value != ""
  {
    if |line| < |value| then line
    else if value <= line then MARKER + ReplaceAll(line[|value|..], value)
    else [line[0]] + ReplaceAll(line[1..], value)
  }

  ghost predicate OccursAt(text: string, i: int, value: string) {
    0 <= i && i + |value| <= |text| && forall k :: 0 <= k < |value| ==> text[i + k] == value[k]
  }

  ghost predicate Contains(text: string, value: string) {
    exists i :: OccursAt(text, i, value)
  }

  // A marker that starts at offset d of the value agrees with it where both are.
  ghost predicate Agrees(value: string, d: int) {
    forall k :: 0 <= k < |value| && 0 <= k - d < |MARKER| ==> value[k] == MARKER[k - d]
  }

  // Some text could hold the value and the marker at overlapping positions.
  ghost predicate CanOverlap(value: string) {
    exists d :: -|MARKER| < d < |value| && Agrees(value, d)
  }

  // An overlap that a scan from the left does not remove by itself: the value
  // does not occur early in its own first d characters followed by itself.
  ghost predicate Exposed(value: string) {
    exists d :: -|MARKER| < d < |value| && Agrees(value, d)
      && forall e :: 0 <= e < d ==> !OccursAt(value[..d] + value, e, value)
  }

  // The line with the first values replaced first.
  function Redact(line: string, values: seq<string>): string
    requires forall i :: 0 <= i < |values| ==> values[i] != ""
  {
    if values == [] then line
    else
      var last := |values| - 1;
      ReplaceAll(Redact(line, values[..last]), values[last])
  }

  // Every value that cannot overlap the marker is gone, whatever the others are.
  method RedactLogLine(line: string, values: seq<string>) returns (redacted: string)
    requires forall i :: 0 <= i < |values| ==> values[i] != ""
    ensures redacted == Redact(line, values)
    ensures forall value :: value in values && !CanOverlap(value) ==> !Contains(redacted, value)
  {
    hide CanOverlap, Contains, ReplaceAll;
    redacted := line;
    for k := 0 to |values|
      invariant redacted == Redact(line, values[..k])
    {
      redacted := ReplaceAll(redacted, values[k]);
      assert values[..k + 1][..k] == values[..k];
    }
    assert values[..|values|] == values;
    forall value | value in values && !CanOverlap(value)
      ensures !Contains(redacted, value)
    {
      RedactionComplete(line, values, value);
    }
  }

  ghost predicate LongestFirst(values: seq<string>) {
    forall i, j :: 0 <= i < j < |values| ==> |values[i]| >= |values[j]|
  }

  // Lists as validated configurations produce them.
  ghost predicate UsableList(values: seq<string>) {
    LongestFirst(values) && forall i :: 0 <= i < |values| ==> values[i] != "" && LineBreakFree(values[i])
  }

  // The values of the snapshot and of the present configuration, longest first.
  ghost predicate IsRedactionList(snapshot: Config, current: Config, values: seq<string>) {
    multiset(values) == multiset(snapshot.redact) + multiset(current.redact) && LongestFirst(values)
  }

  lemma ListedValues(snapshot: Config, current: Config, values: seq<string>)
    requires IsRedactionList(snapshot, current, values) && RedactionsOk(snapshot) && RedactionsOk(current)
    ensures UsableList(values)
    ensures forall value :: value in values <==> value in snapshot.redact || value in current.redact
  {
    forall value
      ensures value in values <==> value in snapshot.redact || value in current.redact
    {
      assert value in values <==> value in multiset(values);
    }
    assert forall i :: 0 <= i < |values| ==> values[i] in values;
  }

  // A log line of a job: every value of either configuration that cannot overlap
  // the marker is gone.
  method RedactForJob(line: string, snapshot: Config, current: Config, values: seq<string>) returns (redacted: string)
    requires RedactionsOk(snapshot) && RedactionsOk(current) && IsRedactionList(snapshot, current, values)
    ensures forall value :: (value in snapshot.redact || value in current.redact) && !CanOverlap(value) ==>
      !Contains(redacted, value)
    ensures UsableList(values) && redacted == Redact(line, values)
    ensures (forall value :: value in snapshot.redact || value in current.redact ==> !Contains(line, value)) ==> redacted == line
  {
    hide CanOverlap, Contains, Redact;
    ListedValues(snapshot, current, values);
    redacted := RedactLogLine(line, values);
    if forall value :: value in values ==> !Contains(line, value) {
      NothingToRedact(line, values);
    }
  }

  // ---- What a replacement is -------------------------------------------------------

  function Join(pieces: seq<string>, separator: string): string
    requires pieces != []
  {
    if |pieces| == 1 then pieces[0] else pieces[0] + separator + Join(pieces[1..], separator)
  }

  // The line is cut at the first occurrence of the value, then at the first one in
  // what follows, and so on; the marker stands at each cut and all else is kept.
  ghost predicate CutAtFirst(pieces: seq<string>, value: string) {
    && pieces != [] && !Contains(pieces[|pieces| - 1], value)
    && forall i, e :: 0 <= i < |pieces| - 1 && 0 <= e < |pieces[i]| ==> !OccursAt(pieces[i] + value, e, value)
  }

  lemma {:induction false} ReplacedAtCuts(line: string, value: string) returns (pieces: seq<string>)
    requires value != ""
    ensures CutAtFirst(pieces, value) && line == Join(pieces, value) && ReplaceAll(line, value) == Join(pieces, MARKER)
  {
    if |line| < |value| {
      pieces := [line];
    } else if value <= line {
      var rest := ReplacedAtCuts(line[|value|..], value);
      pieces := [""] + rest;
      assert pieces[1..] == rest;
    } else {
      var rest := ReplacedAtCuts(line[1..], value);
      pieces := [[line[0]] + rest[0]] + rest[1..];
      assert line == [line[0]] + line[1..];
      LongerFirstPiece(line[0], rest, value);
      JoinLonger(line[0], rest, value);
      JoinLonger(line[0], rest, MARKER);
    }
  }

  lemma LongerFirstPiece(c: char, rest: seq<string>, value: string)
    requires value != "" && CutAtFirst(rest, value) && !(value <= [c] + Join(rest, value))
    ensures CutAtFirst([[c] + rest[0]] + rest[1..], value)
  {
    assert rest != [];
    hide Contains, OccursAt, CutAtFirst, Join;
    var tail := FirstPiece(c, rest, value);
    PrefixGrows(value, if |rest| == 1 then [c] + rest[0] else [c] + rest[0] + value, tail);
    CutLonger(c, rest, value);
  }

  lemma FirstPiece(c: char, rest: seq<string>, separator: string) returns (tail: string)
    requires rest != []
    ensures [c] + Join(rest, separator) == (if |rest| == 1 then [c] + rest[0] else [c] + rest[0] + separator) + tail
  {
    tail := if |rest| == 1 then "" else Join(rest[1..], separator);
    assert |rest| > 1 ==> Join(rest, separator) == rest[0] + separator + tail;
  }

  lemma PrefixGrows(value: string, text: string, tail: string)
    ensures value <= text ==> value <= text + tail
  {
    if value <= text {
      assert forall k :: 0 <= k < |value| ==> (text + tail)[k] == text[k];
    }
  }

  lemma CutLonger(c: char, rest: seq<string>, value: string)
    requires value != "" && CutAtFirst(rest, value)
    requires !(value <= if |rest| == 1 then [c] + rest[0] else [c] + rest[0] + value)
    ensures CutAtFirst([[c] + rest[0]] + rest[1..], value)
  {
    hide Contains, OccursAt;
    var pieces := [[c] + rest[0]] + rest[1..];
    if |rest| == 1 {
      LaterOccurrence(c, rest[0], value);
    } else {
      assert pieces[|pieces| - 1] == rest[|rest| - 1];
      assert pieces[0] + value == [c] + (rest[0] + value);
      LaterOccurrence(c, rest[0] + value, value);
      forall i, e | 0 <= i < |pieces| - 1 && 0 <= e < |pieces[i]|
        ensures !OccursAt(pieces[i] + value, e, value)
      {
        if i == 0 && e > 0 {
          assert !OccursAt(rest[0] + value, e - 1, value);
        } else if i > 0 {
          assert pieces[i] == rest[i];
        }
      }
    }
  }

  lemma JoinLonger(c: char, rest: seq<string>, separator: string)
    requires rest != []
    ensures Join([[c] + rest[0]] + rest[1..], separator) == [c] + Join(rest, separator)
  {
    var pieces := [[c] + rest[0]] + rest[1..];
    assert pieces[1..] == rest[1..];
  }

  // A value that does not start the longer text starts one place earlier in the rest.
  lemma LaterOccurrence(c: char, text: string, value: string)
    requires value != ""
    ensures OccursAt([c] + text, 0, value) ==> value <= [c] + text
    ensures forall e :: e > 0 ==> (OccursAt([c] + text, e, value) <==> OccursAt(text, e - 1, value))
    ensures !(value <= [c] + text) && !Contains(text, value) ==> !Contains([c] + text, value)
  {
    var longer := [c] + text;
    forall e | e > 0
      ensures OccursAt(longer, e, value) <==> OccursAt(text, e - 1, value)
    {
      if OccursAt(text, e - 1, value) {
        forall k | 0 <= k < |value|
          ensures longer[e + k] == value[k]
        {
          assert longer[e + k] == text[e - 1 + k];
        }
      }
      if OccursAt(longer, e, value) {
        forall k | 0 <= k < |value|
          ensures text[e - 1 + k] == value[k]
        {
          assert longer[e + k] == text[e - 1 + k];
        }
      }
    }
    if OccursAt(longer, 0, value) {
      assert forall k :: 0 <= k < |value| ==> longer[0 + k] == value[k];
    }
    if i :| OccursAt(longer, i, value) && i > 0 {
      assert OccursAt(text, i - 1, value);
    }
  }

  // The values are replaced in the order of the list.
  lemma {:induction false} FirstValueFirst(line: string, value: string, values: seq<string>)
    requires value != "" && forall i :: 0 <= i < |values| ==> values[i] != ""
    ensures Redact(line, [value] + values) == Redact(ReplaceAll(line, value), values)
  {
    var all := [value] + values;
    assert all[..|all| - 1] == if values == [] then [] else [value] + values[..|values| - 1];
    if values != [] {
      FirstValueFirst(line, value, values[..|values| - 1]);
    }
  }

  // A line without any of the values is left as it is.
  lemma {:induction false} NothingToRedact(line: string, values: seq<string>)
    requires forall i :: 0 <= i < |values| ==> values[i] != "" && !Contains(line, values[i])
    ensures Redact(line, values) == line
  {
    hide Contains;
    if values != [] {
      NothingToRedact(line, values[..|values| - 1]);
      NothingToReplace(line, values[|values| - 1]);
    }
  }


  // The rest of a secret at the front of a replaced line was there before, or it
  // runs into a marker.
  lemma {:induction false} RestSurvives(line: string, value: string, secret: string, k: nat)
    requires value != "" && k <= |secret| && secret[k..] <= ReplaceAll(line, value) && !CanOverlap(secret)
    ensures secret[k..] <= line
  {
    if k < |secret| && |line| >= |value| {
      var replaced := ReplaceAll(line, value);
      assert forall m :: k <= m < |secret| ==> secret[m] == secret[k..][m - k] == replaced[m - k];
      if value <= line {
        assert Agrees(secret, k);
      } else {
        assert secret[k + 1..] == secret[k..][1..] <= replaced[1..];
        RestSurvives(line[1..], value, secret, k + 1);
        assert secret[k..] == [secret[k]] + secret[k + 1..];
      }
    }
  }

  lemma PrefixOccurs(text: string, at: nat, value: string)
    requires at <= |text|
    ensures value <= text[at..] <==> OccursAt(text, at, value)
  {
    if value <= text[at..] {
      assert forall k :: 0 <= k < |value| ==> value[k] == text[at..][k];
    }
    if OccursAt(text, at, value) {
      assert text[at..][..|value|] == value;
    }
  }

  lemma OccursBehind(head: string, rest: string, i: int, value: string)
    requires |head| <= i
    ensures OccursAt(head + rest, i, value) <==> OccursAt(rest, i - |head|, value)
  {
    assert forall m :: |head| <= m < |head + rest| ==> (head + rest)[m] == rest[m - |head|];
  }

  // A secret that cannot overlap a marker is never created by a replacement.
  lemma {:induction false} ReplaceCreatesNothing(line: string, value: string, secret: string, i: int) returns (before: int)
    requires value != "" && !CanOverlap(secret) && OccursAt(ReplaceAll(line, value), i, secret) && secret != ""
    ensures OccursAt(line, before, secret)
    ensures secret != value
  {
    if |line| < |value| {
      before := i;
    } else if value <= line {
      var rest := ReplaceAll(line[|value|..], value);
      BehindMarker(rest, secret, i);
      hide OccursAt, CanOverlap;
      OccursBehind(MARKER, rest, i, secret);
      before := ReplaceCreatesNothing(line[|value|..], value, secret, i - |MARKER|);
      OccursBehind(line[..|value|], line[|value|..], before + |value|, secret);
      assert line[..|value|] + line[|value|..] == line;
      before := before + |value|;
    } else if i == 0 {
      PrefixOccurs(ReplaceAll(line, value), 0, secret);
      RestSurvives(line, value, secret, 0);
      PrefixOccurs(line, 0, secret);
      before := 0;
    } else {
      OccursBehind([line[0]], ReplaceAll(line[1..], value), i, secret);
      before := ReplaceCreatesNothing(line[1..], value, secret, i - 1);
      OccursBehind([line[0]], line[1..], before + 1, secret);
      assert [line[0]] + line[1..] == line;
      before := before + 1;
    }
  }

  lemma BehindMarker(rest: string, secret: string, i: int)
    requires secret != "" && OccursAt(MARKER + rest, i, secret) && !CanOverlap(secret)
    ensures i >= |MARKER|
  {
    if i < |MARKER| {
      assert Agrees(secret, -i);
    }
  }

  // After all replacements a value of the list that cannot overlap the marker is
  // gone: nothing is asked of the other values or of their order.
  lemma {:induction false} RedactionComplete(line: string, values: seq<string>, value: string)
    requires value in values && !CanOverlap(value) && forall i :: 0 <= i < |values| ==> values[i] != ""
    ensures !Contains(Redact(line, values), value)
  {
    hide CanOverlap;
    var last := |values| - 1;
    var rest := values[..last];
    forall at
      ensures !OccursAt(Redact(line, values), at, value)
    {
      assert value != values[last] ==> value in rest;
      if OccursAt(Redact(line, values), at, value) {
        var before := ReplaceCreatesNothing(Redact(line, rest), values[last], value, at);
        RedactionComplete(line, rest, value);
      }
    }
  }

  // A value that shares no character with the marker cannot overlap it.
  lemma ApartCannotOverlap(value: string)
    requires value != "" && forall i :: 0 <= i < |value| ==> value[i] !in MARKER
    ensures !CanOverlap(value)
  {
    forall d | -|MARKER| < d < |value|
      ensures !Agrees(value, d)
    {
      var k := if d < 0 then 0 else d;
      assert MARKER[k - d] in MARKER && value[k] != MARKER[k - d];
    }
  }

  // ---- One value: exactly when every line comes out clean -------------------------

  // The value, found again at the front of a replaced line, is cut by a marker
  // at an exposed offset. `line` is where the scan was k characters ago.
  lemma {:induction false} FrontIsExposed(line: string, value: string, k: nat)
    requires value != "" && 0 < k <= |value| && k <= |line| && line[..k] == value[..k]
    requires forall e: nat :: e < k ==> !(value <= line[e..])
    requires value[k..] <= ReplaceAll(line[k..], value)
    ensures Exposed(value)
    decreases |value| - k
  {
    hide Exposed;
    var rest := line[k..];
    if |rest| < |value| || k == |value| {
      FrontIsWhole(line, value, k);
      assert false;
    } else if value <= rest {
      CutByMarker(line, value, k);
    } else {
      OneLiteral(line, value, k, ReplaceAll(rest[1..], value));
      assert rest[1..] == line[k + 1..];
      FrontIsExposed(line, value, k + 1);
    }
  }

  // One more character of the value taken from the line itself.
  lemma OneLiteral(line: string, value: string, k: nat, tail: string)
    requires k < |value| && k < |line| && line[..k] == value[..k] && value[k..] <= [line[k]] + tail
    ensures line[..k + 1] == value[..k + 1] && value[k + 1..] <= tail
  {
    assert value[k] == value[k..][0] == line[k];
    assert value[k..][1..] == value[k + 1..] && ([line[k]] + tail)[1..] == tail;
  }

  lemma CutByMarker(line: string, value: string, k: nat)
    requires 0 < k < |value| && k <= |line| && line[..k] == value[..k] && value <= line[k..]
    requires forall e: nat :: e < k ==> !(value <= line[e..])
    requires value[k..] <= ReplaceAll(line[k..], value)
    ensures Exposed(value)
  {
    MarkerAt(value, k, ReplaceAll(line[k..], value));
    EarlierInLine(line, value, k);
  }

  // The value's first k characters followed by itself are what the line has there.
  lemma EarlierInLine(line: string, value: string, k: nat)
    requires k <= |value| && k <= |line| && line[..k] == value[..k] && value <= line[k..]
    ensures forall e :: 0 <= e < k && OccursAt(value[..k] + value, e, value) ==> value <= line[e..]
  {
    SamePrefix(line, value, k);
    forall e | 0 <= e < k && OccursAt(value[..k] + value, e, value)
      ensures value <= line[e..]
    {
      assert OccursAt(line, e, value);
      PrefixOccurs(line, e, value);
    }
  }

  lemma MarkerAt(value: string, k: nat, text: string)
    requires k < |value| && value[k..] <= text && MARKER <= text
    ensures Agrees(value, k)
  {
    assert forall m :: k <= m < |value| ==> value[m] == value[k..][m - k] == text[m - k];
  }

  lemma SamePrefix(line: string, value: string, k: nat)
    requires k <= |value| && k <= |line| && line[..k] == value[..k] && value <= line[k..]
    ensures k + |value| <= |line|
    ensures forall m :: 0 <= m < k + |value| ==> (value[..k] + value)[m] == line[m]
  {
    assert forall m :: 0 <= m < k ==> line[m] == line[..k][m];
    assert forall m :: k <= m < k + |value| ==> line[m] == line[k..][m - k] == value[m - k];
  }

  lemma FrontIsWhole(line: string, value: string, k: nat)
    requires k <= |value| && k <= |line| && line[..k] == value[..k] && value[k..] <= line[k..]
    ensures value <= line[0..]
  {
    assert value == value[..k] + value[k..];
    assert line[0..] == line == line[..k] + line[k..];
  }

  lemma AgreesExposed(value: string, text: string, i: int)
    requires value != "" && 0 <= i < |MARKER| && MARKER <= text && OccursAt(text, i, value)
    ensures Exposed(value)
  {
    assert Agrees(value, -i);
  }

  lemma {:induction false} LeftoverIsExposed(line: string, value: string, i: int)
    requires value != "" && OccursAt(ReplaceAll(line, value), i, value)
    ensures Exposed(value)
  {
    hide Exposed, OccursAt;
    OccursInside(ReplaceAll(line, value), i, value);
    if |line| < |value| {
    } else if value <= line {
      var rest := ReplaceAll(line[|value|..], value);
      if i < |MARKER| {
        OccursInside(MARKER + rest, i, value);
        AgreesExposed(value, MARKER + rest, i);
      } else {
        OccursBehind(MARKER, rest, i, value);
        LeftoverIsExposed(line[|value|..], value, i - |MARKER|);
      }
    } else {
      var rest := ReplaceAll(line[1..], value);
      OccursInside([line[0]] + rest, i, value);
      if i == 0 {
        PrefixOccurs([line[0]] + rest, 0, value);
        assert ([line[0]] + rest)[0..] == [line[0]] + rest;
        assert value[0] == line[0] && value[1..] <= ([line[0]] + rest)[1..] == rest;
        assert line[..1] == value[..1] && line[0..] == line;
        FrontIsExposed(line, value, 1);
      } else {
        OccursBehind([line[0]], rest, i, value);
        LeftoverIsExposed(line[1..], value, i - 1);
      }
    }
  }

  lemma OccursInside(text: string, i: int, value: string)
    ensures OccursAt(text, i, value) ==> 0 <= i && i + |value| <= |text|
  {
  }

  // The scan reaches the first occurrence without changing anything before it.
  lemma {:induction false} ReplaceFirst(line: string, value: string, at: nat)
    requires value != "" && OccursAt(line, at, value) && forall e :: 0 <= e < at ==> !OccursAt(line, e, value)
    ensures at + |value| <= |line|
    ensures ReplaceAll(line, value) == line[..at] + MARKER + ReplaceAll(line[at + |value|..], value)
  {
    hide OccursAt, ReplaceAll;
    OccursInside(line, at, value);
    PrefixOccurs(line, 0, value);
    assert line[0..] == line;
    ReplaceUnfolds(line, value);
    if at > 0 {
      assert !OccursAt(line, 0, value);
      OccursInRest(line, value, at);
      var rest, tail := line[1..], ReplaceAll(line[at + |value|..], value);
      ReplaceFirst(rest, value, at - 1);
      JoinLiteral(line, at, |value|, tail);
    } else {
      assert line[..0] + MARKER == MARKER;
    }
  }

  lemma ReplaceUnfolds(line: string, value: string)
    requires value != "" && |line| >= |value|
    ensures ReplaceAll(line, value) ==
      if value <= line then MARKER + ReplaceAll(line[|value|..], value) else [line[0]] + ReplaceAll(line[1..], value)
  {
  }

  lemma OccursInRest(line: string, value: string, at: nat)
    requires line != "" && at > 0
    ensures OccursAt(line, at, value) ==> OccursAt(line[1..], at - 1, value)
    ensures forall e :: 0 <= e < at - 1 && OccursAt(line[1..], e, value) ==> OccursAt(line, e + 1, value)
  {
    hide OccursAt;
    assert [line[0]] + line[1..] == line;
    OccursBehind([line[0]], line[1..], at, value);
    forall e | 0 <= e < at - 1
      ensures OccursAt(line[1..], e, value) ==> OccursAt(line, e + 1, value)
    {
      OccursBehind([line[0]], line[1..], e + 1, value);
    }
  }

  lemma JoinLiteral(line: string, at: nat, length: nat, tail: string)
    requires 0 < at && at + length <= |line|
    ensures line[1..][at - 1 + length..] == line[at + length..]
    ensures [line[0]] + (line[1..][..at - 1] + MARKER + tail) == line[..at] + MARKER + tail
  {
    assert line[..at] == [line[0]] + line[1..][..at - 1];
  }

  // Redacting one value leaves it in no line if and only if it is not exposed.
  lemma RedactionExact(value: string)
    requires value != ""
    ensures (forall line :: !Contains(ReplaceAll(line, value), value)) <==> !Exposed(value)
  {
    forall line, i | OccursAt(ReplaceAll(line, value), i, value)
      ensures Exposed(value)
    {
      LeftoverIsExposed(line, value, i);
    }
    if Exposed(value) {
      var d :| -|MARKER| < d < |value| && Agrees(value, d)
        && forall e :: 0 <= e < d ==> !OccursAt(value[..d] + value, e, value);
      ExposedSurvives(value, d);
    }
  }

  // The offending line: the value with one copy of itself where the marker will be.
  lemma ExposedSurvives(value: string, d: int)
    requires value != "" && -|MARKER| < d < |value| && Agrees(value, d)
    requires forall e :: 0 <= e < d ==> !OccursAt(value[..d] + value, e, value)
    ensures exists line :: Contains(ReplaceAll(line, value), value)
  {
    hide OccursAt, Agrees, ReplaceAll;
    var head := if d < 0 then "" else value[..d];
    var tail := if d + |MARKER| < |value| then value[d + |MARKER|..] else "";
    var line := head + value + tail;
    forall e | 0 <= e < |head|
      ensures !OccursAt(line, e, value)
    {
      if OccursAt(line, e, value) {
        EarlyOccurs(head, value, tail, e);
      }
    }
    CopyOccurs(head, value, tail);
    ReplaceFirst(line, value, |head|);
    assert line[..|head|] == head && line[|head| + |value|..] == tail;
    ShortUnchanged(tail, value);
    MarkerFits(value, d, head, tail);
    assert Contains(ReplaceAll(line, value), value);
  }

  lemma ShortUnchanged(line: string, value: string)
    requires |line| < |value|
    ensures ReplaceAll(line, value) == line
  {
  }

  lemma EarlyOccurs(head: string, value: string, tail: string, e: nat)
    requires e < |head| && OccursAt(head + value + tail, e, value)
    ensures OccursAt(head + value, e, value)
  {
    assert forall m :: 0 <= m < |head + value| ==> (head + value + tail)[m] == (head + value)[m];
  }

  lemma CopyOccurs(head: string, value: string, tail: string)
    ensures OccursAt(head + value + tail, |head|, value)
  {
  }

  lemma MarkerFits(value: string, d: int, head: string, tail: string)
    requires -|MARKER| < d < |value| && Agrees(value, d)
    requires head == if d < 0 then "" else value[..d]
    requires tail == if d + |MARKER| < |value| then value[d + |MARKER|..] else ""
    ensures OccursAt(head + MARKER + tail, |head| - d, value)
  {
    forall k | 0 <= k < |value|
      ensures (head + MARKER + tail)[|head| - d + k] == value[k]
    {
      if k >= d && k < d + |MARKER| {
        assert (head + MARKER + tail)[|head| + (k - d)] == MARKER[k - d];
      }
    }
  }

  // ---- One value among others: exactly when no list can leave it -------------------

  lemma {:induction false} NothingToReplace(line: string, value: string)
    requires value != "" && !Contains(line, value)
    ensures ReplaceAll(line, value) == line
  {
    if |line| >= |value| {
      PrefixOccurs(line, 0, value);
      assert line[0..] == line;
      forall i | OccursAt(line[1..], i, value)
        ensures Contains(line, value)
      {
        assert OccursAt(line, i + 1, value);
      }
      NothingToReplace(line[1..], value);
    }
  }

  // The offending line has a foreign character where the marker will be. The value
  // does not occur in it; replacing that character afterwards makes it occur.
  lemma OverlapLeaks(value: string, c: char) returns (line: string)
    requires value != "" && CanOverlap(value) && c !in value
    ensures !Contains(line, value) && Contains(Redact(line, [value, [c]]), value)
  {
    hide Contains, Agrees, ReplaceAll;
    var d :| -|MARKER| < d < |value| && Agrees(value, d);
    var head := if d < 0 then "" else value[..d];
    var tail := if d + |MARKER| < |value| then value[d + |MARKER|..] else "";
    line := head + [c] + tail;
    NotAround(value, c, head, tail);
    NothingToReplace(line, value);
    ForeignOnce(c, head, tail);
    ReplaceFirst(line, [c], |head|);
    assert line[..|head|] == head && line[|head| + 1..] == tail;
    NothingToReplace(tail, [c]);
    MarkerFits(value, d, head, tail);
    OccursMeans(head + MARKER + tail, |head| - d, value);
    RedactTwo(line, value, [c]);
  }

  lemma OccursMeans(text: string, i: int, value: string)
    ensures OccursAt(text, i, value) ==> Contains(text, value)
  {
  }

  lemma RedactTwo(line: string, first: string, second: string)
    requires first != "" && second != ""
    ensures Redact(line, [first, second]) == ReplaceAll(ReplaceAll(line, first), second)
  {
    var values := [first, second];
    assert values[..1] == [first] && values[..1][..0] == [];
    assert Redact(line, values[..1]) == ReplaceAll(Redact(line, values[..1][..0]), first);
  }

  // Between two pieces shorter than the value, an occurrence takes the middle in.
  lemma TakesMiddle(value: string, c: char, head: string, tail: string, i: int)
    requires |head| < |value| && |tail| < |value|
    ensures OccursAt(head + [c] + tail, i, value) ==> c in value
  {
    if OccursAt(head + [c] + tail, i, value) {
      assert (head + [c] + tail)[i + (|head| - i)] == value[|head| - i];
    }
  }

  lemma NotAround(value: string, c: char, head: string, tail: string)
    requires c !in value && |head| < |value| && |tail| < |value|
    ensures !Contains(head + [c] + tail, value)
  {
    forall i
      ensures !OccursAt(head + [c] + tail, i, value)
    {
      TakesMiddle(value, c, head, tail, i);
    }
  }

  lemma OneCharacter(text: string, i: int, c: char)
    ensures OccursAt(text, i, [c]) <==> 0 <= i < |text| && text[i] == c
  {
    if OccursAt(text, i, [c]) {
      assert text[i + 0] == [c][0];
    }
  }

  lemma ForeignOnce(c: char, head: string, tail: string)
    requires c !in head && c !in tail
    ensures OccursAt(head + [c] + tail, |head|, [c])
    ensures forall e :: 0 <= e < |head| ==> !OccursAt(head + [c] + tail, e, [c])
    ensures !Contains(tail, [c])
  {
    forall e
      ensures OccursAt(tail, e, [c]) <==> 0 <= e < |tail| && tail[e] == c
      ensures OccursAt(head + [c] + tail, e, [c]) <==> 0 <= e < |head + [c] + tail| && (head + [c] + tail)[e] == c
    {
      OneCharacter(tail, e, c);
      OneCharacter(head + [c] + tail, e, c);
    }
  }

  // A value is removed from every line under every list that contains it if and
  // only if it cannot overlap the marker. (It is enough that some other character
  // exists that a configured value may have.)
  lemma RedactionListExact(value: string)
    requires value != "" && LineBreakFree(value) && exists c :: c !in value && LineBreakFree([c])
    ensures
      (forall line, values :: UsableList(values) && value in values ==> !Contains(Redact(line, values), value))
      <==> !CanOverlap(value)
  {
    hide Contains, CanOverlap, Redact;
    if CanOverlap(value) {
      var c :| c !in value && LineBreakFree([c]);
      var line := OverlapLeaks(value, c);
      assert UsableList([value, [c]]) && value in [value, [c]];
    } else {
      forall line, values | UsableList(values) && value in values
        ensures !Contains(Redact(line, values), value)
      {
        RedactionComplete(line, values, value);
      }
    }
  }

  // Some values are exposed: the marker itself spells this one.
  lemma MarkerCanSpellAValue()
    ensures Redact("E", ["E"]) == MARKER && Contains(MARKER, "E") && Exposed("E")
  {
    assert ["E"][..0] == [];
    assert ReplaceAll("E"[1..], "E") == "";
    assert OccursAt(MARKER, 2, "E");
    assert Agrees("E", -2);
  }
}
