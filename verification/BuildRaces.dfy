/** Ends of a build session by several processes: each reads the start of the open session and later
    adds its length to the total, whatever the row has become.  The row of one repository, against
    the history in which every such addition is one end. */
module BuildRaces {
  import opened Text
  import opened BuildTime

  /** An end that has read the session and not yet written. */
  datatype Pending = Pending(start: int, stepLabel: string, at: int)

  /** `atomic` is the history with whole ends, `latest` the time of its latest start, and `extra` what
      the additions made too much. */
  datatype State = State(
    row: Option<Row>, ends: map<nat, Pending>, atomic: seq<Event>, latest: int, extra: int)

  datatype Action =
    | Begin(stepLabel: string, at: int)
    | Relabel(stepLabel: string, at: int)
    | ReadEnd(p: nat, stepLabel: string, at: int)
    | WriteEnd(p: nat)
    | Abort(p: nat)

  function Init(at: int): State {
    State(None, map[], [], at, 0)
  }

  /** What ending the session now would add. */
  function Worth(row: Option<Row>, at: int): int {
    if row == None || row.value.sessionStart == None then 0
    else Elapsed(at, row.value.sessionStart.value) / NS_PER_MS
  }

  function Adds(e: Pending): int {
    Elapsed(e.at, e.start) / NS_PER_MS
  }

  function Record(s: State, e: Event): State {
    s.(atomic := s.atomic + [e])
  }

  function Step(s: State, a: Action): State {
    match a
    case Begin(stepLabel, at) =>
      Record(s, Start("", stepLabel, at)).(
        row := Some(Started(s.row, stepLabel, at)), latest := if at > s.latest then at else s.latest)
    case Relabel(stepLabel, at) =>
      if s.row == None then s
      else Record(s, StepTo("", stepLabel, at)).(row := Some(Stepped(s.row.value, stepLabel, at)))
    case ReadEnd(p, stepLabel, at) =>
      if p in s.ends || s.row == None || s.row.value.sessionStart == None then s
      else s.(ends := s.ends[p := Pending(s.row.value.sessionStart.value, stepLabel, at)])
    case WriteEnd(p) =>
      if p !in s.ends || s.row == None then s
      else
        var e := s.ends[p];
        Record(s, End("", e.stepLabel, e.at)).(
          row := Some(EndedFrom(s.row.value, e.start, e.stepLabel, e.at)), ends := s.ends - {p},
          extra := s.extra + Adds(e) - Worth(s.row, e.at))
    case Abort(p) => s.(ends := s.ends - {p})
  }

  /** Who has read a session and not yet written its end. */
  lemma EndsAfterStep(s: State, a: Action)
    ensures var ends := Step(s, a).ends;
      match a
      case ReadEnd(p, stepLabel, at) =>
        if p !in s.ends && s.row.Some? && s.row.value.sessionStart.Some?
        then ends == s.ends[p := Pending(s.row.value.sessionStart.value, stepLabel, at)] else ends == s.ends
      case WriteEnd(p) => if s.row.Some? then ends == s.ends - {p} else ends == s.ends
      case Abort(p) => ends == s.ends - {p}
      case _ => ends == s.ends
  {
  }

  /** What is written down as having happened, and when the latest start was. */
  lemma HistoryAfterStep(s: State, a: Action)
    ensures var t := Step(s, a);
      match a
      case Begin(stepLabel, at) =>
        t.atomic == s.atomic + [Start("", stepLabel, at)] && s.latest <= t.latest && at <= t.latest
        && t.latest in {at, s.latest}
      case Relabel(stepLabel, at) =>
        t.latest == s.latest
        && t.atomic == if s.row.Some? then s.atomic + [StepTo("", stepLabel, at)] else s.atomic
      case WriteEnd(p) =>
        t.latest == s.latest
        && t.atomic == if p in s.ends && s.row.Some? then s.atomic + [End("", s.ends[p].stepLabel, s.ends[p].at)]
                       else s.atomic
      case _ => t.atomic == s.atomic && t.latest == s.latest && t.row == s.row
  {
  }

  /** A written end adds what the session it read was worth and closes whatever is open. */
  lemma RowAfterWrite(s: State, p: nat)
    requires p in s.ends && s.row.Some?
    ensures var e, row := s.ends[p], Step(s, WriteEnd(p)).row;
      row == Some(Row(
        totalMs := s.row.value.totalMs + Elapsed(e.at, e.start) / 1_000_000, sessionStart := None,
        lastEnd := Some(e.at), stepStart := None, runStart := None, stepLabel := TrimSpace(e.stepLabel)))
  {
  }

  function After(s: State, actions: seq<Action>): State
    decreases |actions|
  {
    if actions == [] then s else After(Step(s, actions[0]), actions[1..])
  }

  /** The total as stored. */
  function Total(row: Option<Row>): int {
    if row == None then 0 else row.value.totalMs
  }

  /** All that an end can unsettle for good is the total; the sessions are those of whole ends. */
  ghost predicate Tracks(s: State) {
    var whole := RowOf(s.atomic);
    && (s.row == None <==> whole == None)
    && Total(s.row) == Total(whole) + s.extra
    && (s.row.Some? ==> SameSession(s.row.value, whole.value))
  }

  predicate SameSession(a: Row, b: Row) {
    a.sessionStart == b.sessionStart && a.stepStart == b.stepStart && a.runStart == b.runStart
  }

  lemma RecordOne(s: State, e: Event)
    ensures RowOf(Record(s, e).atomic) == ApplyToRow(RowOf(s.atomic), e)
  {
    assert (s.atomic + [e])[..|s.atomic|] == s.atomic;
  }

  /** Step and run start are set only while a session is open. */
  predicate Tidy(s: State) {
    s.row.Some? && s.row.value.sessionStart == None ==> s.row.value.stepStart == None && s.row.value.runStart == None
  }

  lemma WriteKeepsTracks(s: State, p: nat)
    requires Tracks(s) && Tidy(s) && p in s.ends && s.row.Some?
    ensures Tracks(Step(s, WriteEnd(p)))
  {
    RecordOne(s, End("", s.ends[p].stepLabel, s.ends[p].at));
  }

  lemma StepKeepsTracks(s: State, a: Action)
    requires Tracks(s) && Tidy(s)
    ensures Tracks(Step(s, a)) && Tidy(Step(s, a))
  {
    match a
    case Begin(stepLabel, at) => RecordOne(s, Start("", stepLabel, at));
    case Relabel(stepLabel, at) => RecordOne(s, StepTo("", stepLabel, at));
    case WriteEnd(p) =>
      if p in s.ends && s.row.Some? {
        WriteKeepsTracks(s, p);
      }
    case _ =>
  }

  // ----- when an end adds too much -----

  /** No pending end has read a session that began after the one that is open now, nor will. */
  ghost predicate Ordered(s: State) {
    && (forall p :: p in s.ends ==> s.ends[p].start <= s.latest)
    && (s.row.Some? && s.row.value.sessionStart.Some? ==>
          s.row.value.sessionStart.value <= s.latest
          && forall p :: p in s.ends ==> s.ends[p].start <= s.row.value.sessionStart.value)
  }

  /** Sessions are begun at times that do not go back. */
  ghost predicate Timely(s: State, actions: seq<Action>)
    decreases |actions|
  {
    actions != [] ==>
      (actions[0].Begin? ==> actions[0].at >= s.latest) && Timely(Step(s, actions[0]), actions[1..])
  }

  lemma StepKeepsOrdered(s: State, a: Action)
    requires Ordered(s) && (a.Begin? ==> a.at >= s.latest)
    ensures Ordered(Step(s, a))
  {
  }

  lemma ElapsedShrinks(at: int, early: int, late: int)
    requires early <= late
    ensures Elapsed(at, late) / NS_PER_MS <= Elapsed(at, early) / NS_PER_MS
  {
  }

  /** An end never adds too little. */
  lemma ExtraIsNotNegative(s: State, p: nat)
    requires Ordered(s) && p in s.ends && s.row.Some?
    ensures Step(s, WriteEnd(p)).extra >= s.extra
  {
    if s.row.value.sessionStart.Some? {
      ElapsedShrinks(s.ends[p].at, s.ends[p].start, s.row.value.sessionStart.value);
    }
  }

  /** Every end that is written adds what ending the session at that moment adds: its session is still
      the open one, or one worth the same. */
  ghost predicate NeverLate(s: State, actions: seq<Action>)
    decreases |actions|
  {
    actions != [] ==> !Late(s, actions[0]) && NeverLate(Step(s, actions[0]), actions[1..])
  }

  predicate Late(s: State, a: Action) {
    a.WriteEnd? && a.p in s.ends && s.row.Some? && Adds(s.ends[a.p]) != Worth(s.row, s.ends[a.p].at)
  }

  lemma StepExtra(s: State, a: Action)
    requires Ordered(s)
    ensures Step(s, a).extra >= s.extra && (Step(s, a).extra == s.extra <==> !Late(s, a))
  {
    if a.WriteEnd? && a.p in s.ends && s.row.Some? {
      ExtraIsNotNegative(s, a.p);
    }
  }

  lemma {:induction false} ExtraExactly(s: State, actions: seq<Action>)
    requires Ordered(s) && Tracks(s) && Tidy(s) && Timely(s, actions)
    ensures var t := After(s, actions);
      && Tracks(t) && t.extra >= s.extra && (t.extra == s.extra <==> NeverLate(s, actions))
    decreases |actions|
  {
    if actions != [] {
      StepKeepsOrdered(s, actions[0]);
      StepKeepsTracks(s, actions[0]);
      StepExtra(s, actions[0]);
      ExtraExactly(Step(s, actions[0]), actions[1..]);
    }
  }

  /** Over every interleaving the stored total is that of whole ends, or more, and it is that total if
      and only if no end was written late; session, step and run start are those of whole ends in
      any case. */
  lemma TotalIsRightExactly(from: int, actions: seq<Action>)
    requires Timely(Init(from), actions)
    ensures var s := After(Init(from), actions); var whole := RowOf(s.atomic);
      && Total(s.row) >= Total(whole) && (Total(s.row) == Total(whole) <==> NeverLate(Init(from), actions))
      && (s.row == None <==> whole == None)
      && (s.row.Some? ==> SameSession(s.row.value, whole.value))
  {
    ExtraExactly(Init(from), actions);
  }

  /** Two ends that read one session before either writes add it twice. */
  lemma OverlappingEndsCountTwice(s: State, p: nat, q: nat, stepLabel: string, at: int)
    requires s.row.Some? && s.row.value.sessionStart.Some? && p != q && p !in s.ends && q !in s.ends
    ensures var read := Step(Step(s, ReadEnd(p, stepLabel, at)), ReadEnd(q, stepLabel, at));
      var t := Step(Step(read, WriteEnd(p)), WriteEnd(q));
      Total(t.row) == Total(s.row) + 2 * Worth(s.row, at)
  {
  }
}
