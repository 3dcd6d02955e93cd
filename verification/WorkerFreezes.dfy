/** Which workers nobody who writes the worker table can move any more, and how they get there. */
module WorkerFreezes {
  import opened Text
  import opened Workers
  import opened WorkerRaces
  import opened WorkerApprovals

  /** Turned away by every dispatch, with nothing on record to approve or deny, and without a
      persisted turn for the run loop to take up. */
  predicate Still(w: Worker) {
    !Free(w.status) && !Decidable(w) && !Continuable(w)
  }

  /** A command under way whose save would leave this worker's row still, and its status alone. */
  predicate Harmless(proc: Proc, row: Worker) {
    && proc.Holding?
    && ((proc.cmd.Nudge? && Still(proc.copy) && proc.copy.status == row.status)
        || (proc.cmd.Decide? && row.status == EXECUTOR_ACTIVE && !HasTurn(proc.copy)))
  }

  ghost predicate Frozen(s: State, id: string) {
    && id in s.workers && Still(s.workers[id])
    && forall p :: p in s.procs && Concerns(s.procs[p], id) ==> Harmless(s.procs[p], s.workers[id])
  }

  lemma StillRow(w: Worker)
    ensures Still(Saved(w)) <==> !Free(w.status) && !Decidable(Saved(w)) && !Continuable(w)
  {
    SavedHasTurn(w);
    SavedKeeps(w);
  }

  lemma DecidedIsStillExactly(w: Worker, d: Decision)
    ensures Still(Saved(Decided(w, d))) <==> !HasTurn(w)
  {
    StillRow(Decided(w, d));
    DecidedRow(w, d);
  }

  lemma StartedIsStillExactly(w: Worker)
    ensures Still(Saved(Started(w))) <==> !HasTurn(w)
  {
    StillRow(Started(w));
    StartedRow(w);
  }

  lemma NudgedIsStill(w: Worker, n: Workers.Nudge)
    requires KeyedRow(w.id, w)
    ensures Still(Saved(Nudged(w, n))) <==> Still(w)
  {
    NudgedRow(w, n);
  }

  // ----- frozen for good -----

  lemma ReadKeepsFrozen(s: State, e: Event, id: string)
    requires Frozen(s, id) && Sane(s) && Reads(s, e)
    ensures Frozen(Apply(s, e), id) && Apply(s, e).workers == s.workers
  {
    ReadStep(s, e);
    if e.key == id {
      FrozenAdmitsOnlyNudges(s, e);
    }
  }

  lemma FrozenAdmitsOnlyNudges(s: State, e: Event)
    requires Reads(s, e) && Still(s.workers[e.key])
    ensures e.cmd.Nudge?
  {
  }

  /** Another worker's row, or this one's with the same status and still. */
  lemma PutKeepsFrozen(s: State, t: State, p: nat, row: Worker, id: string)
    requires Frozen(s, id) && (row.id == id ==> Still(row) && row.status == s.workers[id].status)
    requires t.workers == s.workers[row.id := row]
    requires forall q :: q in t.procs && q != p ==> q in s.procs && t.procs[q] == s.procs[q]
    requires p in t.procs ==> !Concerns(t.procs[p], id)
    ensures Frozen(t, id) && t.workers[id].status == s.workers[id].status
  {
  }

  lemma DecisionPuts(proc: Proc, e: Event, clock: nat, put: Worker)
    requires proc.Holding? && proc.cmd.Decide? && RowPut(proc, e) == Some(put)
    ensures put == Decided(proc.copy, proc.cmd.d) && put.status == EXECUTOR_ACTIVE
    ensures Next(proc, e, clock).Some? ==> Next(proc, e, clock).value.Refreshing?
  {
  }

  lemma HarmlessDecision(proc: Proc, e: Event, clock: nat, put: Worker, row: Worker)
    requires Harmless(proc, row) && proc.cmd.Decide? && RowPut(proc, e) == Some(put)
    ensures Still(Saved(put)) && put.status == row.status
    ensures Next(proc, e, clock).Some? ==> Next(proc, e, clock).value.Refreshing?
  {
    DecisionPuts(proc, e, clock, put);
    DecidedIsStillExactly(proc.copy, proc.cmd.d);
  }

  lemma NudgePuts(proc: Proc, e: Event, clock: nat, put: Worker)
    requires proc.Holding? && proc.cmd.Nudge? && RowPut(proc, e) == Some(put)
    ensures put == Nudged(proc.copy, proc.cmd.n) && put.status == proc.copy.status && Next(proc, e, clock) == None
  {
  }

  lemma HarmlessNudge(proc: Proc, e: Event, clock: nat, put: Worker, row: Worker)
    requires Harmless(proc, row) && proc.cmd.Nudge? && KeyedRow(proc.copy.id, proc.copy) && RowPut(proc, e) == Some(put)
    ensures Still(Saved(put)) && put.status == row.status && Next(proc, e, clock) == None
  {
    NudgePuts(proc, e, clock, put);
    NudgedIsStill(proc.copy, proc.cmd.n);
  }

  lemma HarmlessPut(proc: Proc, e: Event, clock: nat, put: Worker, row: Worker)
    requires Harmless(proc, row) && WrittenProc(proc) && RowPut(proc, e) == Some(put)
    ensures Still(Saved(put)) && put.status == row.status
    ensures Next(proc, e, clock).Some? ==> Next(proc, e, clock).value.Refreshing?
  {
    if proc.cmd.Decide? {
      HarmlessDecision(proc, e, clock, put, row);
    } else {
      HarmlessNudge(proc, e, clock, put, row);
    }
  }

  lemma ConcernedIsHarmless(s: State, q: nat, id: string)
    requires Frozen(s, id) && q in s.procs && Concerns(s.procs[q], id)
    ensures Harmless(s.procs[q], s.workers[id])
  {
  }

  lemma SaveElsewhere(proc: Proc, e: Event, clock: nat, put: Worker, id: string)
    requires RowPut(proc, e) == Some(put) && put.id != id
    ensures Next(proc, e, clock).Some? ==> !Concerns(Next(proc, e, clock).value, id)
  {
    PutSubject(proc, e, clock, put);
  }

  lemma SaveHere(s: State, e: Event, put: Worker)
    requires Frozen(s, put.id) && Puts(s, e, put) && WrittenProc(s.procs[e.p])
    ensures Still(Saved(put)) && put.status == s.workers[put.id].status
    ensures var next := Next(s.procs[e.p], e, s.clock); next.Some? ==> next.value.Refreshing?
  {
    PutSubject(s.procs[e.p], e, s.clock, put);
    ConcernedIsHarmless(s, e.p, put.id);
    HarmlessPut(s.procs[e.p], e, s.clock, put, s.workers[put.id]);
  }

  lemma SaveHereKeepsFrozen(s: State, e: Event, put: Worker)
    requires Frozen(s, put.id) && Puts(s, e, put) && WrittenProc(s.procs[e.p])
    ensures Frozen(Apply(s, e), put.id) && Apply(s, e).workers[put.id].status == s.workers[put.id].status
  {
    SaveHere(s, e, put);
    PutStep(s, e, put);
    SavedKeeps(put);
    PutKeepsFrozen(s, Apply(s, e), e.p, Saved(put), put.id);
  }

  lemma SaveElsewhereKeepsFrozen(s: State, e: Event, put: Worker, id: string)
    requires Frozen(s, id) && Puts(s, e, put) && put.id != id
    ensures Frozen(Apply(s, e), id) && Apply(s, e).workers[id].status == s.workers[id].status
  {
    SaveElsewhere(s.procs[e.p], e, s.clock, put, id);
    PutStep(s, e, put);
    SavedKeeps(put);
    PutKeepsFrozen(s, Apply(s, e), e.p, Saved(put), id);
  }

  lemma CreateKeepsFrozen(s: State, e: Event, id: string)
    requires Frozen(s, id) && Creates(s, e)
    ensures Frozen(Apply(s, e), id) && Apply(s, e).workers[id].status == s.workers[id].status
  {
    CreateStep(s, e);
    PutKeepsFrozen(s, Apply(s, e), e.p, Created(e.id, e.runID), id);
  }

  /** Only a command that has claimed or holds a worker deletes it, and a frozen one's would not. */
  lemma FrozenIsNotDeleted(s: State, e: Event, id: string)
    requires Frozen(s, id) && Sane(s) && Minor(s, e)
    ensures id in Apply(s, e).workers
  {
    if (e.Save? || e.Fail? || e.Finish?) && e.p in s.procs {
      var row := RowPut(s.procs[e.p], e);
      assert row.Some? ==> !Puts(s, e, row.value);
      if Deletes(s.procs[e.p], e) && Subject(s.procs[e.p]).value.id == id {
        assert Concerns(s.procs[e.p], id);
      }
    }
  }

  lemma MinorKeepsFrozen(s: State, e: Event, id: string)
    requires Frozen(s, id) && Sane(s) && Minor(s, e)
    ensures Frozen(Apply(s, e), id) && Apply(s, e).workers[id] == s.workers[id]
  {
    MinorStep(s, e);
    FrozenIsNotDeleted(s, e, id);
    var t := Apply(s, e);
    forall q | q in t.procs && Concerns(t.procs[q], id) ensures Harmless(t.procs[q], t.workers[id]) {
      assert Concerns(s.procs[q], id);
    }
  }

  lemma StepKeepsFrozen(s: State, e: Event, id: string)
    requires Base(s) && Frozen(s, id)
    ensures Frozen(Apply(s, e), id) && Apply(s, e).workers[id].status == s.workers[id].status
  {
    if row :| Puts(s, e, row) {
      if row.id == id {
        SaveHereKeepsFrozen(s, e, row);
      } else {
        SaveElsewhereKeepsFrozen(s, e, row, id);
      }
    } else if Reads(s, e) {
      ReadKeepsFrozen(s, e, id);
    } else if Creates(s, e) {
      CreateKeepsFrozen(s, e, id);
    } else {
      MinorKeepsFrozen(s, e, id);
    }
  }

  /** A frozen worker keeps its status under every interleaving of all who write the worker table,
      the planner and the run loop included: it is neither dispatched, decided, taken up, finished
      nor removed. */
  lemma {:induction false} FrozenForGood(s: State, events: seq<Event>, id: string)
    requires Base(s) && Frozen(s, id)
    ensures Frozen(After(s, events), id) && After(s, events).workers[id].status == s.workers[id].status
    decreases |events|
  {
    if events != [] {
      ApplyKeepsSane(s, events[0]);
      ApplyKeepsWritten(s, events[0]);
      StepKeepsFrozen(s, events[0], id);
      FrozenForGood(Apply(s, events[0]), events[1..], id);
    }
  }

  // ----- how workers freeze -----

  /** No command but `p` is under way on this worker. */
  ghost predicate Alone(s: State, p: nat, id: string) {
    forall q :: q in s.procs && Concerns(s.procs[q], id) ==> q == p
  }

  /** A row put by the only command on it, which then is gone or done with it. */
  lemma PutFreezesExactly(s: State, t: State, p: nat, row: Worker)
    requires Alone(s, p, row.id) && t.workers == s.workers[row.id := row]
    requires forall q :: q in t.procs && q != p ==> q in s.procs && t.procs[q] == s.procs[q]
    requires p in t.procs ==> !Concerns(t.procs[p], row.id)
    ensures Frozen(t, row.id) <==> Still(row)
  {
  }

  lemma AbortStep(s: State, p: nat)
    ensures Apply(s, Abort(p)) == s.(procs := s.procs - {p}, clock := s.clock + 1)
  {
  }

  /** A dispatch that dies after its mark, be it killed or without an executor client, freezes its
      worker if and only if the worker has no ids of an earlier turn; with them, the run loop takes
      the worker up. */
  lemma AbortFreezesExactly(s: State, p: nat, cmd: Command, copy: Worker, own: Option<bool>, since: nat)
    requires p in s.procs && s.procs[p] == Holding(cmd, copy, own, since) && cmd.Dispatch?
    requires copy.id in s.workers && Alone(s, p, copy.id)
    ensures Frozen(Apply(Apply(s, Save(p)), Abort(p)), copy.id) <==> !HasTurn(copy)
  {
    DispatchMarks(s, p, cmd, copy, own, since);
    SavedKeeps(Started(copy));
    AbortStep(Apply(s, Save(p)), p);
    StartedIsStillExactly(copy);
    PutFreezesExactly(s, Apply(Apply(s, Save(p)), Abort(p)), p, Saved(Started(copy)));
  }

  /** And at any time, for every claim, a creation's and the planner's included: its holder's death
      freezes the worker if and only if the row is still by then and no other command under way can
      change that. */
  lemma DeathFreezesExactly(s: State, p: nat, id: string)
    requires Engages(s, p, id) && id in s.workers
    ensures Frozen(Apply(s, Abort(p)), id)
      <==> Still(s.workers[id])
           && forall q :: q in s.procs && q != p && Concerns(s.procs[q], id) ==> Harmless(s.procs[q], s.workers[id])
  {
    AbortStep(s, p);
    var t := Apply(s, Abort(p));
    assert forall q :: q in t.procs <==> q in s.procs && q != p;
  }

  /** A creation that dies before its worktree is there leaves a worker that nobody can move. */
  lemma DeadCreationFreezes(s: State, p: nat, id: string, runID: string)
    requires Creates(s, Create(p, id, runID))
    ensures Frozen(Apply(Apply(s, Create(p, id, runID)), Abort(p)), id)
  {
    CreateStep(s, Create(p, id, runID));
    AbortStep(Apply(s, Create(p, id, runID)), p);
    PutFreezesExactly(s, Apply(Apply(s, Create(p, id, runID)), Abort(p)), p, Created(id, runID));
    assert TrimSpace("") == "";
  }

  /** The save of an approve or deny freezes its worker if and only if no turn is on record for the
      run loop to take up. */
  lemma DecisionFreezesExactly(s: State, p: nat, d: Decision, copy: Worker, own: bool, since: nat)
    requires p in s.procs && s.procs[p] == Holding(Decide(d), copy, Some(own), since)
    requires copy.id in s.workers && Alone(s, p, copy.id)
    ensures Frozen(Apply(s, Save(p)), copy.id) <==> !HasTurn(copy)
  {
    DecisionSaves(s, p, d, copy, own, since);
    DecidedIsStillExactly(copy, d);
    PutFreezesExactly(s, Apply(s, Save(p)), p, Saved(Decided(copy, d)));
  }

  /** What a turn must report to leave a still worker. */
  predicate LeavesStill(r: TurnResult) {
    && r.turnStatus == APPROVAL_REQUIRED && r.approvalState == "" && r.approval == None
    && (Blank(r.threadID) || Blank(r.turnID))
  }

  lemma StillAfterTurn(w: Worker, r: TurnResult)
    ensures Still(Saved(Finished(w, r))) <==> LeavesStill(r)
  {
    StillRow(Finished(w, r));
    FinishedStatus(w, r);
    FinishedHasTurn(w, r);
  }

  lemma FinishedHasTurn(w: Worker, r: TurnResult)
    ensures HasTurn(Finished(w, r)) <==> !Blank(r.threadID) && !Blank(r.turnID)
  {
  }

  /** The end of a turn, a command's own or one the run loop has taken up, freezes the worker if and
      only if the turn asks for approval, records none, and lacks one of its ids. */
  lemma FinishFreezesExactly(s: State, p: nat, local: Worker, r: TurnResult)
    requires p in s.procs && Runs(s.procs[p], local) && local.id in s.workers && Alone(s, p, local.id)
    ensures Frozen(Apply(s, Finish(p, r)), local.id) <==> LeavesStill(r)
  {
    TurnLands(s, p, local, r);
    StillAfterTurn(local, r);
    PutFreezesExactly(s, Apply(s, Finish(p, r)), p, Saved(Finished(local, r)));
  }

  // ----- and no other worker is stuck -----

  /** The worker is gone, or has another status. */
  predicate Moved(s: State, t: State, id: string)
    requires id in s.workers
  {
    id !in t.workers || t.workers[id].status != s.workers[id].status
  }

  lemma OneRowMoves(s: State, e: Event, put: Worker, id: string)
    requires Puts(s, e, put) && put.id == id && id in s.workers && put.status != s.workers[id].status
    ensures Moved(s, After(s, [e]), id)
  {
    OneEvent(s, e);
    PutStep(s, e, put);
    SavedKeeps(put);
  }

  lemma IdleMoves(s: State, id: string, free: nat) returns (events: seq<Event>)
    requires Base(s) && id in s.workers && !IsWorkerActive(s.workers[id].status) && free !in s.procs
    ensures Moved(s, After(s, events), id)
  {
    events := [Read(free, id, Remove), Save(free)];
    TwoSteps(s, events[0], events[1]);
    assert KeyedRow(id, s.workers[id]);
    ReadStep(s, events[0]);
    var held := Apply(s, events[0]);
    MoveStep(held, events[1]);
  }

  /** A queued worker is launched by the planner. */
  lemma QueuedMoves(s: State, id: string, free: nat) returns (events: seq<Event>)
    requires Base(s) && id in s.workers && s.workers[id].status == PENDING && free !in s.procs
    ensures Moved(s, After(s, events), id)
  {
    events := [Read(free, id, Launch(true)), Save(free)];
    TwoSteps(s, events[0], events[1]);
    ReadStep(s, events[0]);
    var held, put := Apply(s, events[0]), Launched(s.workers[id]);
    PutStep(held, events[1], put);
    SavedKeeps(put);
  }

  lemma DecidableMoves(s: State, id: string, free: nat) returns (events: seq<Event>)
    requires Base(s) && AllMeaningful(s) && id in s.workers && s.workers[id].runID in s.runs && free !in s.procs
    requires Decidable(s.workers[id])
    ensures id in After(s, events).workers
    ensures s.workers[id].status == APPROVAL_REQUIRED && After(s, events).workers[id].status == EXECUTOR_ACTIVE
  {
    var w := s.workers[id];
    events := [Read(free, id, Decide(Approve)), Load(free), Save(free)];
    ThreeEvents(s, events[0], events[1], events[2]);
    assert KeyedRow(id, w);
    SavedRowIsTrimmed(w);
    DecisionIsRead(s, free, id, Approve);
    var held := Apply(s, events[0]);
    LoadIsOneReading(held, free, Decide(Approve), w, None, s.clock);
    DecisionSaves(Apply(held, events[1]), free, Approve, w, OwnAwaits(s.runs[w.runID]), s.clock);
  }

  /** A persisted turn is taken up by the run loop. */
  lemma ContinuableMoves(s: State, id: string, free: nat) returns (events: seq<Event>)
    requires Base(s) && id in s.workers && Continuable(s.workers[id]) && free !in s.procs
    ensures Moved(s, After(s, events), id)
  {
    events := [Read(free, id, Continue), Finish(free, PlainResult())];
    TwoSteps(s, events[0], events[1]);
    ContinuationIsRead(s, free, id);
    TurnLands(Apply(s, events[0]), free, s.workers[id], PlainResult());
  }

  lemma TurnMoves(s: State, id: string, q: nat, local: Worker)
    requires id in s.workers && q in s.procs && Runs(s.procs[q], local) && local.id == id
    requires !Free(s.workers[id].status)
    ensures Moved(s, After(s, [Finish(q, PlainResult())]), id)
  {
    OneEvent(s, Finish(q, PlainResult()));
    TurnLands(s, q, local, PlainResult());
  }

  /** A save that starts a turn, and the end of that turn. */
  lemma StartMoves(s: State, id: string, q: nat, put: Worker) returns (events: seq<Event>)
    requires Puts(s, Save(q), put) && put.id == id && id in s.workers && !Free(s.workers[id].status)
    requires Next(s.procs[q], Save(q), s.clock).Some? && Runs(Next(s.procs[q], Save(q), s.clock).value, put)
    ensures Moved(s, After(s, events), id)
  {
    events := [Save(q), Finish(q, PlainResult())];
    TwoSteps(s, events[0], events[1]);
    PutStep(s, Save(q), put);
    TurnLands(Apply(s, Save(q)), q, put, PlainResult());
  }

  /** An assigned worker gets its turn. */
  lemma AssignedMoves(s: State, id: string, q: nat, local: Worker, since: nat) returns (events: seq<Event>)
    requires q in s.procs && s.procs[q] == Engaged(Assignment, local, since) && local.id == id
    requires id in s.workers && !Free(s.workers[id].status)
    ensures Moved(s, After(s, events), id)
  {
    events := StartMoves(s, id, q, Launched(local));
  }

  lemma AssignMoves(s: State, id: string, q: nat) returns (events: seq<Event>)
    requires q in s.procs && s.procs[q].Holding? && s.procs[q].cmd.Assign? && s.procs[q].copy.id == id
    requires id in s.workers && !Free(s.workers[id].status)
    ensures Moved(s, After(s, events), id)
  {
    var put := Prepared(s.procs[q].copy, ASSIGNED);
    if s.workers[id].status != ASSIGNED {
      events := [Save(q)];
      OneRowMoves(s, Save(q), put, id);
    } else {
      PutStep(s, Save(q), put);
      SavedKeeps(put);
      var t := Apply(s, Save(q));
      var rest := AssignedMoves(t, id, q, put, s.clock);
      events := [Save(q)] + rest;
      AfterFirst(s, Save(q), rest);
    }
  }

  /** The save of an older copy with the same status brings back what there was to decide or to take
      up. */
  lemma NudgeBringsBack(s: State, id: string, q: nat, free: nat, copy: Worker, n: Workers.Nudge)
    returns (events: seq<Event>)
    requires Base(s) && AllMeaningful(s) && id in s.workers && free !in s.procs
    requires q in s.procs && s.procs[q].Holding? && s.procs[q].cmd == Nudge(n) && s.procs[q].copy == copy
    requires copy.id == id && copy.status == s.workers[id].status && !Free(copy.status) && !Still(copy)
    requires copy.runID in s.runs
    ensures Moved(s, After(s, events), id)
  {
    var t := Apply(s, Save(q));
    NudgeLands(s, q, n, copy, s.procs[q].own, s.procs[q].since);
    NudgedRow(copy, n);
    ApplyKeepsSane(s, Save(q));
    ApplyKeepsWritten(s, Save(q));
    ApplyKeepsMeaning(s, Save(q));
    var rest: seq<Event>;
    if Continuable(copy) {
      rest := ContinuableMoves(t, id, free);
    } else {
      rest := DecidableMoves(t, id, free);
    }
    events := [Save(q)] + rest;
    AfterFirst(s, Save(q), rest);
  }

  lemma HarmlessNudgeExactly(proc: Proc, row: Worker)
    requires proc.Holding? && proc.cmd.Nudge? && Still(row)
    ensures !Harmless(proc, row) && proc.copy.status == row.status ==> !Still(proc.copy) && !Free(proc.copy.status)
  {
  }

  lemma StaleNudgeMoves(s: State, id: string, q: nat, free: nat) returns (events: seq<Event>)
    requires Base(s) && AllMeaningful(s) && id in s.workers && free !in s.procs
    requires Still(s.workers[id]) && q in s.procs && s.procs[q].Holding? && s.procs[q].cmd.Nudge?
    requires s.procs[q].copy.id == id && s.procs[q].copy.runID in s.runs && !Harmless(s.procs[q], s.workers[id])
    ensures Moved(s, After(s, events), id)
  {
    var copy, n := s.procs[q].copy, s.procs[q].cmd.n;
    HarmlessNudgeExactly(s.procs[q], s.workers[id]);
    if copy.status != s.workers[id].status {
      events := [Save(q)];
      OneRowMoves(s, Save(q), Nudged(copy, n), id);
    } else {
      events := NudgeBringsBack(s, id, q, free, copy, n);
    }
  }

  lemma HeldMoves(s: State, id: string, q: nat, free: nat) returns (events: seq<Event>)
    requires Base(s) && AllMeaningful(s) && id in s.workers && s.workers[id].runID in s.runs && free !in s.procs
    requires Still(s.workers[id]) && q in s.procs && s.procs[q].Holding? && s.procs[q].copy.id == id
    requires s.procs[q].copy.runID in s.runs && !Harmless(s.procs[q], s.workers[id])
    ensures Moved(s, After(s, events), id)
  {
    var cmd, copy := s.procs[q].cmd, s.procs[q].copy;
    if cmd.Dispatch? {
      events := StartMoves(s, id, q, Started(copy));
    } else if cmd.Launch? {
      events := StartMoves(s, id, q, Launched(copy));
    } else if cmd.Assign? {
      events := AssignMoves(s, id, q);
    } else if cmd.Queue? {
      events := [Save(q)];
      OneRowMoves(s, Save(q), Prepared(copy, PENDING), id);
    } else if cmd.Nudge? {
      events := StaleNudgeMoves(s, id, q, free);
    } else if cmd.Decide? {
      events := StaleDecisionMoves(s, id, q, free);
    } else {
      events := [Save(q)];
      OneEvent(s, Save(q));
      MoveStep(s, Save(q));
    }
  }

  /** A decision under way saves another status, or brings back a turn to take up. */
  lemma StaleDecisionMoves(s: State, id: string, q: nat, free: nat) returns (events: seq<Event>)
    requires Base(s) && id in s.workers && free !in s.procs
    requires q in s.procs && s.procs[q].Holding? && s.procs[q].cmd.Decide? && s.procs[q].copy.id == id
    requires s.procs[q].copy.runID in s.runs && !Harmless(s.procs[q], s.workers[id])
    ensures Moved(s, After(s, events), id)
  {
    var proc := s.procs[q];
    var loaded := Apply(s, Load(q));
    var own := OwnAwaits(s.runs[proc.copy.runID]);
    LoadIsOneReading(s, q, proc.cmd, proc.copy, proc.own, proc.since);
    DecisionSaves(loaded, q, proc.cmd.d, proc.copy, own, proc.since);
    var saved := Apply(loaded, Save(q));
    TwoSteps(s, Load(q), Save(q));
    events := [Load(q), Save(q)];
    if s.workers[id].status == EXECUTOR_ACTIVE {
      ApplyKeepsSane(s, Load(q));
      ApplyKeepsWritten(s, Load(q));
      ApplyKeepsSane(loaded, Save(q));
      ApplyKeepsWritten(loaded, Save(q));
      SavedHasTurn(Decided(proc.copy, proc.cmd.d));
      var rest := ContinuableMoves(saved, id, free);
      AfterConcat(s, events, rest);
      events := events + rest;
    }
  }

  lemma PendingMoves(s: State, id: string, q: nat, free: nat) returns (events: seq<Event>)
    requires Base(s) && AllMeaningful(s) && id in s.workers && s.workers[id].runID in s.runs && free !in s.procs
    requires forall p :: p in s.procs && s.procs[p].Holding? ==> s.procs[p].copy.runID in s.runs
    requires Still(s.workers[id]) && q in s.procs && Concerns(s.procs[q], id) && !Harmless(s.procs[q], s.workers[id])
    ensures Moved(s, After(s, events), id)
  {
    var proc := s.procs[q];
    if proc.Holding? {
      events := HeldMoves(s, id, q, free);
    } else if proc.Engaged? && proc.job.Assignment? {
      events := AssignedMoves(s, id, q, proc.local, proc.since);
    } else if proc.Engaged? && proc.job.Creation? {
      events := [Save(q)];
      OneRowMoves(s, Save(q), Idled(proc.local), id);
    } else {
      events := [Finish(q, PlainResult())];
      TurnMoves(s, id, q, proc.local);
    }
  }

  /** All runs that workers and commands speak of are known. */
  ghost predicate KnownRuns(s: State) {
    && (forall id :: id in s.workers ==> s.workers[id].runID in s.runs)
    && (forall p :: p in s.procs && s.procs[p].Holding? ==> s.procs[p].copy.runID in s.runs)
  }

  /** A worker is frozen if and only if nobody can move it: any other can be moved at once by some
      sequence of store calls. */
  lemma UnfrozenMoves(s: State, id: string, free: nat) returns (events: seq<Event>)
    requires Base(s) && AllMeaningful(s) && KnownRuns(s) && id in s.workers && free !in s.procs
    requires !Frozen(s, id)
    ensures Moved(s, After(s, events), id)
  {
    var w := s.workers[id];
    if !IsWorkerActive(w.status) {
      events := IdleMoves(s, id, free);
    } else if w.status == PENDING {
      events := QueuedMoves(s, id, free);
    } else if Decidable(w) {
      events := DecidableMoves(s, id, free);
    } else if Continuable(w) {
      events := ContinuableMoves(s, id, free);
    } else {
      var q :| q in s.procs && Concerns(s.procs[q], id) && !Harmless(s.procs[q], s.workers[id]);
      events := PendingMoves(s, id, q, free);
    }
  }
}
