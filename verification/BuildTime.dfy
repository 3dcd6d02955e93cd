/** The build-time ledger: one row per repository, a running total in whole milliseconds, and
    at most one open session.  Each store method is one atomic step here; `BuildRaces` takes the
    end of a session apart.  Times are nanoseconds. */
module BuildTime {
  import opened Text

  const NS_PER_MS := 1_000_000
  const MAX_DURATION := 0x7FFF_FFFF_FFFF_FFFF
  const DEFAULT_LABEL := "Orchestrator loop active"

  /** Times that are not set are `None` (the empty string in the table). */
  datatype Row = Row(
    totalMs: int,
    sessionStart: Option<int>,
    lastEnd: Option<int>,
    stepStart: Option<int>,
    runStart: Option<int>,
    stepLabel: string)

  datatype Outcome = Ok | RepoPathRequired

  /** `time.Time.Sub` followed by the clamp: a 64-bit duration, never negative. */
  function Elapsed(end: int, start: int): (d: int)
    ensures 0 <= d <= 9_223_372_036_854_775_807
    ensures start <= end <= start + 9_223_372_036_854_775_807 ==> d == end - start
    ensures end < start ==> d == 0
  {
    if end - start < 0 then 0 else if end - start > MAX_DURATION then MAX_DURATION else end - start
  }

  function Started(row: Option<Row>, stepLabel: string, at: int): Row {
    var text := if TrimSpace(stepLabel) == "" then DEFAULT_LABEL else TrimSpace(stepLabel);
    match row
    case None => Row(0, Some(at), None, Some(at), Some(at), text)
    case Some(r) =>
      r.(sessionStart := if r.sessionStart == None then Some(at) else r.sessionStart,
         stepStart := Some(at), runStart := Some(at), stepLabel := text)
  }

  function Stepped(row: Row, stepLabel: string, at: int): Row {
    if TrimSpace(stepLabel) == "" || row.sessionStart == None then row
    else row.(stepStart := Some(at), stepLabel := TrimSpace(stepLabel))
  }

  function Ended(row: Row, stepLabel: string, at: int): Row {
    if row.sessionStart == None then row
    else Row(row.totalMs + Elapsed(at, row.sessionStart.value) / NS_PER_MS,
      None, Some(at), None, None, TrimSpace(stepLabel))
  }

  /** The update that ends a session, by the session start that was read before it. */
  function EndedFrom(row: Row, start: int, stepLabel: string, at: int): Row {
    Row(row.totalMs + Elapsed(at, start) / NS_PER_MS, None, Some(at), None, None, TrimSpace(stepLabel))
  }

  // ----- the store -----

  /** A call without a time is about the moment `now`. */
  class Store {
    var rows: map<string, Row>

    method GetBuildTime(repoPath: string) returns (r: Option<Row>, err: Outcome)
      ensures err == (if Blank(repoPath) then RepoPathRequired else Ok)
      ensures r == (if !Blank(repoPath) && TrimSpace(repoPath) in rows then Some(rows[TrimSpace(repoPath)]) else None)
    {
      var key := TrimSpace(repoPath);
      if key == "" {
        return None, RepoPathRequired;
      }
      if key !in rows {
        return None, Ok;
      }
      return Some(rows[key]), Ok;
    }

    method StartBuildSession(repoPath: string, stepLabel: string, at: Option<int>, now: int) returns (err: Outcome)
      modifies this
      ensures err == (if Blank(repoPath) then RepoPathRequired else Ok)
      ensures err != Ok ==> rows == old(rows)
      ensures rows == Apply(old(rows), Start(repoPath, stepLabel, if at == None then now else at.value))
    {
      var key := TrimSpace(repoPath);
      if key == "" {
        return RepoPathRequired;
      }
      var when := if at == None then now else at.value;
      var text := TrimSpace(stepLabel);
      if text == "" {
        text := DEFAULT_LABEL;
      }
      if key in rows {
        var r := rows[key];
        var session := if r.sessionStart == None then Some(when) else r.sessionStart;
        rows := rows[key := r.(sessionStart := session,
          stepStart := Some(when), runStart := Some(when), stepLabel := text)];
      } else {
        rows := rows[key := Row(0, Some(when), None, Some(when), Some(when), text)];
      }
      return Ok;
    }

    method UpdateBuildStep(repoPath: string, stepLabel: string, at: Option<int>, now: int) returns (err: Outcome)
      modifies this
      ensures err == (if Blank(repoPath) then RepoPathRequired else Ok)
      ensures err != Ok ==> rows == old(rows)
      ensures rows == Apply(old(rows), StepTo(repoPath, stepLabel, if at == None then now else at.value))
    {
      var key := TrimSpace(repoPath);
      if key == "" {
        return RepoPathRequired;
      }
      var text := TrimSpace(stepLabel);
      if text == "" {
        return Ok;
      }
      var when := if at == None then now else at.value;
      if key in rows && rows[key].sessionStart.Some? {
        rows := rows[key := rows[key].(stepStart := Some(when), stepLabel := text)];
      }
      return Ok;
    }

    /** The reading half of `EndBuildSession`: the start of the open session, if there is one. */
    method ReadForEnd(key: string) returns (start: Option<int>)
      requires key != "" && Trimmed(key)
      ensures start == if key in rows then rows[key].sessionStart else None
    {
      var item, _ := GetBuildTime(key);
      if item == None {
        return None;
      }
      return item.value.sessionStart;
    }

    /** Its writing half, which adds to the row whatever that has become. */
    method WriteEnd(key: string, start: int, stepLabel: string, when: int)
      modifies this
      ensures rows
           == if key in old(rows) then old(rows)[key := EndedFrom(old(rows)[key], start, stepLabel, when)]
              else old(rows)
    {
      var elapsed := Elapsed(when, start);
      if key in rows {
        rows := rows[key := Row(rows[key].totalMs + elapsed / NS_PER_MS,
          None, Some(when), None, None, TrimSpace(stepLabel))];
      }
    }

    /** Undisturbed, the two halves are one event. */
    method EndBuildSession(repoPath: string, stepLabel: string, at: Option<int>, now: int) returns (err: Outcome)
      modifies this
      ensures err == (if Blank(repoPath) then RepoPathRequired else Ok)
      ensures err != Ok ==> rows == old(rows)
      ensures rows == Apply(old(rows), End(repoPath, stepLabel, if at == None then now else at.value))
    {
      var key := TrimSpace(repoPath);
      if key == "" {
        return RepoPathRequired;
      }
      var start := ReadForEnd(key);
      if start.Some? {
        WriteEnd(key, start.value, stepLabel, if at == None then now else at.value);
      }
      return Ok;
    }
  }

  // ----- event histories -----

  datatype Event =
    | Start(repo: string, stepLabel: string, at: int)
    | StepTo(repo: string, stepLabel: string, at: int)
    | End(repo: string, stepLabel: string, at: int)

  function ApplyToRow(row: Option<Row>, e: Event): Option<Row> {
    match e
    case Start(_, stepLabel, at) => Some(Started(row, stepLabel, at))
    case StepTo(_, stepLabel, at) => if row == None then None else Some(Stepped(row.value, stepLabel, at))
    case End(_, stepLabel, at) => if row == None then None else Some(Ended(row.value, stepLabel, at))
  }

  function RowAt(rows: map<string, Row>, key: string): Option<Row> {
    if key in rows then Some(rows[key]) else None
  }

  function Apply(rows: map<string, Row>, e: Event): map<string, Row> {
    var key := TrimSpace(e.repo);
    if key == "" then rows
    else
      match ApplyToRow(RowAt(rows, key), e)
      case None => rows
      case Some(r) => rows[key := r]
  }

  function ApplyAll(events: seq<Event>): map<string, Row> {
    if events == [] then map[] else Apply(ApplyAll(events[..|events| - 1]), events[|events| - 1])
  }

  /** The events about one repository, in order. */
  function Of(events: seq<Event>, key: string): seq<Event> {
    if events == [] then []
    else
      var last := events[|events| - 1];
      Of(events[..|events| - 1], key) + if TrimSpace(last.repo) == key then [last] else []
  }

  // ----- what the row should say, from the events alone -----

  /** The last start or end was a start. */
  predicate Open(events: seq<Event>) {
    events != [] && var last := events[|events| - 1];
      last.Start? || (last.StepTo? && Open(events[..|events| - 1]))
  }

  /** Nanoseconds during which a session was open, summed gap by gap between events. */
  function ActiveNs(events: seq<Event>): int {
    if |events| < 2 then 0
    else
      var before := events[..|events| - 1];
      ActiveNs(before) + if Open(before) then events[|events| - 1].at - before[|before| - 1].at else 0
  }

  /** The start that opened the open session; starts while a session is open do not move it. */
  function OpenedAt(events: seq<Event>): int
    requires Open(events)
  {
    var before := events[..|events| - 1];
    if Open(before) then OpenedAt(before) else events[|events| - 1].at
  }

  /** The latest start, nested or not: the current run. */
  function LastStartAt(events: seq<Event>): int
    requires Open(events)
  {
    var last := events[|events| - 1];
    if last.Start? then last.at else LastStartAt(events[..|events| - 1])
  }

  /** The latest start or named step: the current step. */
  function LastStepAt(events: seq<Event>): int
    requires Open(events)
  {
    var last := events[|events| - 1];
    if last.Start? || !Blank(last.stepLabel) then last.at else LastStepAt(events[..|events| - 1])
  }

  predicate ClosesSession(before: seq<Event>, e: Event) {
    e.End? && Open(before)
  }

  function ClosedSessions(events: seq<Event>): nat {
    if events == [] then 0
    else
      var before := events[..|events| - 1];
      ClosedSessions(before) + if ClosesSession(before, events[|events| - 1]) then 1 else 0
  }

  /** The closed sessions' lengths, each cut to whole milliseconds, summed. */
  function TruncatedMs(events: seq<Event>): int {
    if events == [] then 0
    else
      var before := events[..|events| - 1]; var last := events[|events| - 1];
      TruncatedMs(before) + if ClosesSession(before, last) then (last.at - OpenedAt(before)) / NS_PER_MS else 0
  }

  /** When a session was last closed. */
  function LastClosedAt(events: seq<Event>): Option<int> {
    if events == [] then None
    else
      var before := events[..|events| - 1]; var last := events[|events| - 1];
      if ClosesSession(before, last) then Some(last.at) else LastClosedAt(before)
  }

  /** The label of the latest event that sets one: a start, which has a default, a named step of an
      open session, or the end of one. */
  function LastLabel(events: seq<Event>): string {
    if events == [] then ""
    else
      var before := events[..|events| - 1]; var last := events[|events| - 1];
      match last
      case Start(_, text, _) => if Blank(text) then "Orchestrator loop active" else TrimSpace(text)
      case StepTo(_, text, _) => if Open(before) && !Blank(text) then TrimSpace(text) else LastLabel(before)
      case End(_, text, _) => if Open(before) then TrimSpace(text) else LastLabel(before)
  }

  /** How long the open session, if there is one, has been open at the last event. */
  function PendingNs(events: seq<Event>): int {
    if Open(events) then events[|events| - 1].at - OpenedAt(events) else 0
  }

  /** Times do not go back, and the whole history fits in a 64-bit duration. */
  ghost predicate Timely(events: seq<Event>) {
    && (forall i, j :: 0 <= i <= j < |events| ==> events[i].at <= events[j].at)
    && (events != [] ==> events[|events| - 1].at - events[0].at <= MAX_DURATION)
  }

  lemma TimelyPrefix(events: seq<Event>)
    requires Timely(events) && events != []
    ensures Timely(events[..|events| - 1])
  {
    var before := events[..|events| - 1];
    if before != [] {
      assert before[|before| - 1].at <= events[|events| - 1].at;
    }
  }

  lemma {:induction false} OpenedAtIsAnEventTime(events: seq<Event>)
    requires Timely(events) && Open(events)
    ensures events[0].at <= OpenedAt(events) <= events[|events| - 1].at
  {
    var before := events[..|events| - 1];
    if Open(before) {
      TimelyPrefix(events);
      OpenedAtIsAnEventTime(before);
    }
  }

  /** An event changes the row of its own repository and no other. */
  lemma ApplyTouchesOneRow(rows: map<string, Row>, e: Event, key: string)
    requires key != ""
    ensures RowAt(Apply(rows, e), key)
         == if TrimSpace(e.repo) == key then ApplyToRow(RowAt(rows, key), e) else RowAt(rows, key)
  {
  }

  /** Rows of different repositories do not influence each other. */
  lemma {:induction false} RowsAreIndependent(events: seq<Event>, key: string)
    requires key != ""
    ensures RowAt(ApplyAll(events), key) == RowOf(Of(events, key))
  {
    if events != [] {
      var before, last := events[..|events| - 1], events[|events| - 1];
      RowsAreIndependent(before, key);
      ApplyTouchesOneRow(ApplyAll(before), last, key);
      if TrimSpace(last.repo) == key {
        assert Of(events, key)[..|Of(before, key)|] == Of(before, key);
      } else {
        assert Of(events, key) == Of(before, key);
      }
    }
  }

  /** The row of one repository as its own events make it. */
  function RowOf(events: seq<Event>): Option<Row> {
    if events == [] then None else ApplyToRow(RowOf(events[..|events| - 1]), events[|events| - 1])
  }

  /** What one row says about the events that made it. */
  ghost predicate RowTellsTheTruth(row: Option<Row>, events: seq<Event>) {
    match row
    case None =>
      && !Open(events) && TruncatedMs(events) == 0 && ClosedSessions(events) == 0
      && LastClosedAt(events) == None && LastLabel(events) == ""
    case Some(r) =>
      && r.totalMs == TruncatedMs(events)
      && r.sessionStart == (if Open(events) then Some(OpenedAt(events)) else None)
      && r.stepStart == (if Open(events) then Some(LastStepAt(events)) else None)
      && r.runStart == (if Open(events) then Some(LastStartAt(events)) else None)
      && r.lastEnd == LastClosedAt(events)
      && r.stepLabel == LastLabel(events)
  }

  lemma {:induction false} RowOfTellsTheTruth(events: seq<Event>)
    requires Timely(events)
    ensures RowTellsTheTruth(RowOf(events), events)
  {
    if events != [] {
      var before, last := events[..|events| - 1], events[|events| - 1];
      TimelyPrefix(events);
      RowOfTellsTheTruth(before);
      if Open(before) {
        OpenedAtIsAnEventTime(before);
      }
    }
  }

  /** The truncation error: at most one nanosecond short of a millisecond per closed session. */
  lemma {:induction false} TruncationIsBounded(events: seq<Event>)
    requires Timely(events)
    ensures var exact := ActiveNs(events) - PendingNs(events);
      0 <= exact - TruncatedMs(events) * NS_PER_MS <= ClosedSessions(events) * (NS_PER_MS - 1)
  {
    if events != [] {
      var before, last := events[..|events| - 1], events[|events| - 1];
      TimelyPrefix(events);
      TruncationIsBounded(before);
      if Open(before) {
        OpenedAtIsAnEventTime(before);
        assert ActiveNs(events) == ActiveNs(before) + last.at - before[|before| - 1].at;
      }
    }
  }

  /** Conservation, for any interleaving of any repositories' events at times that do not go
      back: the stored total is the sum of the truncated closed sessions, nested starts never
      count twice, the true active time of the closed sessions exceeds the total by less than
      one millisecond per session, and the session, step and run start are set exactly while a
      session is open. */
  lemma BuildTimeIsConserved(events: seq<Event>, key: string)
    requires key != "" && Timely(Of(events, key))
    ensures var own := Of(events, key); var row := RowAt(ApplyAll(events), key);
      && RowTellsTheTruth(row, own)
      && (row.Some? ==>
           0 <= ActiveNs(own) - PendingNs(own) - row.value.totalMs * NS_PER_MS <= ClosedSessions(own) * (NS_PER_MS - 1))
  {
    RowsAreIndependent(events, key);
    RowOfTellsTheTruth(Of(events, key));
    TruncationIsBounded(Of(events, key));
  }
}
