/** Everything that writes the worker table, one store call at a time: the commands that create,
    dispatch, approve, deny, interrupt, kill, steer and remove a worker, the planner's own
    dispatches, and the run loop that takes up a persisted turn.  Each works on the copy it has
    read and saves the whole row.  Executor results are arbitrary. */
module Workers {
  import opened Text

  const CREATING := "creating"
  const IDLE := "idle"
  const PENDING := "pending"
  const ASSIGNED := "assigned"
  const EXECUTOR_ACTIVE := "executor_active"
  const APPROVAL_REQUIRED := "approval_required"
  const COMPLETED := "completed"
  const FAILED := "failed"
  const IN_PROGRESS := "in_progress"
  const INTERRUPTED := "interrupted"
  const REQUIRED := "required"
  const STOP_FOR_APPROVAL := "executor_approval_required"

  datatype Approval = Approval(state: string, details: string)

  datatype ControlRecord = ControlRecord(action: string, payload: string)

  datatype Worker = Worker(
    id: string,
    runID: string,
    status: string,
    threadID: string,
    turnID: string,
    turnStatus: string,
    approvalState: string,
    interruptible: bool,
    steerable: bool,
    approval: Option<Approval>,
    lastControl: Option<ControlRecord>)

  /** A run, as far as these commands read and write it; `approvalState` is that of the run's own
      approval record, if it has one. */
  datatype Run = Run(id: string, stopReason: string, approvalState: Option<string>)

  /** What the executor reports; `failed` is its error result, for the planner and the run loop
      also a missing completion time. */
  datatype TurnResult = TurnResult(
    threadID: string,
    turnID: string,
    turnStatus: string,
    approvalState: string,
    approval: Option<string>,
    interruptible: bool,
    steerable: bool,
    failed: bool)

  // ----- predicates on a worker -----

  predicate IsWorkerActive(status: string) {
    status in {CREATING, PENDING, ASSIGNED, EXECUTOR_ACTIVE, APPROVAL_REQUIRED}
  }

  /** What the planner's dispatches accept: they also take a worker they have queued. */
  predicate Free(status: string) {
    !IsWorkerActive(status) || status == PENDING
  }

  predicate HasTurn(w: Worker) {
    !Blank(w.threadID) && !Blank(w.turnID)
  }

  /** `hasContinuableWorkerTurn`; no row has a blank worktree path. */
  predicate Continuable(w: Worker) {
    HasTurn(w) && w.status in {EXECUTOR_ACTIVE, APPROVAL_REQUIRED}
  }

  predicate ApprovalRequired(w: Worker) {
    TrimSpace(w.approvalState) == REQUIRED || w.status == APPROVAL_REQUIRED
  }

  predicate Interruptible(w: Worker) {
    !Blank(w.turnID) && (w.interruptible || TrimSpace(w.turnStatus) in {IN_PROGRESS, APPROVAL_REQUIRED})
  }

  predicate Steerable(w: Worker) {
    !Blank(w.turnID) && !ApprovalRequired(w) && (w.steerable || TrimSpace(w.turnStatus) == IN_PROGRESS)
  }

  // ----- saving -----

  /** What a save writes of a worker whose ids are trimmed: the other texts trimmed too, and a
      blank approval state taken from the approval record. */
  function Saved(w: Worker): Worker {
    w.(threadID := TrimSpace(w.threadID), turnID := TrimSpace(w.turnID), turnStatus := TrimSpace(w.turnStatus),
       approvalState :=
         if Blank(w.approvalState) && w.approval.Some? then TrimSpace(w.approval.value.state)
         else TrimSpace(w.approvalState))
  }

  // ----- what the commands do to a worker -----

  function Started(w: Worker): Worker {
    w.(status := EXECUTOR_ACTIVE, turnStatus := IN_PROGRESS, approvalState := "",
       interruptible := true, steerable := true, approval := None, lastControl := None)
  }

  function Created(id: string, runID: string): Worker {
    Worker(id, runID, CREATING, "", "", "", "", false, false, None, None)
  }

  function Idled(w: Worker): Worker {
    w.(status := IDLE)
  }

  /** The planner's assignment or queueing. */
  function Prepared(w: Worker, status: string): Worker {
    w.(status := status, turnStatus := "", approvalState := "", interruptible := false, steerable := false,
       approval := None, lastControl := None)
  }

  /** The planner's start of a turn, which keeps the approval record. */
  function Launched(w: Worker): Worker {
    w.(status := EXECUTOR_ACTIVE, turnStatus := IN_PROGRESS, approvalState := "")
  }

  /** What the planner saves instead when there is no executor. */
  function Unstarted(w: Worker): Worker {
    w.(status := FAILED)
  }

  predicate AsksForApproval(r: TurnResult) {
    r.approvalState == REQUIRED || r.turnStatus == APPROVAL_REQUIRED
  }

  function StatusAfter(r: TurnResult): string {
    if AsksForApproval(r) then APPROVAL_REQUIRED
    else if r.failed || r.turnStatus == FAILED || r.turnStatus == INTERRUPTED then FAILED
    else COMPLETED
  }

  function ApprovalOf(r: TurnResult): Option<Approval> {
    if r.approval == None && r.approvalState == "" then None
    else Some(Approval(r.approvalState, if r.approval == None then "" else r.approval.value))
  }

  function Finished(w: Worker, r: TurnResult): Worker {
    w.(status := StatusAfter(r), threadID := TrimSpace(r.threadID), turnID := TrimSpace(r.turnID),
       turnStatus := if Blank(r.turnStatus) then StatusAfter(r) else r.turnStatus,
       approvalState := r.approvalState, approval := ApprovalOf(r),
       interruptible := r.interruptible, steerable := r.steerable)
  }

  datatype Decision = Approve | Deny

  function DecisionState(d: Decision): string {
    if d == Approve then "granted" else "denied"
  }

  function DecisionAction(d: Decision): string {
    if d == Approve then "approved" else "denied"
  }

  function Decided(w: Worker, d: Decision): Worker {
    w.(status := EXECUTOR_ACTIVE, turnStatus := IN_PROGRESS, approvalState := DecisionState(d),
       interruptible := true, steerable := true,
       approval := if w.approval == None then None else Some(w.approval.value.(state := DecisionState(d))),
       lastControl := Some(ControlRecord(DecisionAction(d), "")))
  }

  datatype Nudge = Interrupt | Kill | Steer(note: string)

  function NudgeAction(n: Nudge): string {
    match n
    case Interrupt => "interrupted"
    case Kill => "kill_unsupported"
    case Steer(_) => "steered"
  }

  predicate NudgeAllowed(w: Worker, n: Nudge) {
    match n
    case Interrupt => Interruptible(w)
    case Kill => !Blank(w.turnID)
    case Steer(_) => Steerable(w)
  }

  function Nudged(w: Worker, n: Nudge): Worker {
    w.(lastControl := Some(ControlRecord(NudgeAction(n), if n.Steer? then TrimSpace(n.note) else "")))
  }

  ghost predicate SameButControl(a: Worker, b: Worker) {
    a.(lastControl := None) == b.(lastControl := None)
  }

  // ----- the tables and the commands -----

  type WorkerRows = map<string, Worker>
  type RunRows = map<string, Run>

  datatype Outcome =
    | Done
    | ArgumentRequired
    | WorkerNotFound
    | RunNotFound
    | AlreadyActive
    | PathUnavailable
    | NothingToDecide
    | NotAllowed

  /** Rows are stored under their own ids, as a save writes them. */
  ghost predicate Keyed(workers: WorkerRows, runs: RunRows) {
    && (forall id :: id in workers ==> KeyedRow(id, workers[id]))
    && (forall id :: id in runs ==> runs[id].id == id && id != "" && Trimmed(id))
  }

  ghost predicate KeyedRow(id: string, w: Worker) {
    w.id == id && KeyedIds(w) && Saved(w) == w
  }

  ghost predicate KeyedIds(w: Worker) {
    w.id != "" && Trimmed(w.id) && w.runID != "" && Trimmed(w.runID) && w.status != ""
  }

  function Lookup(workers: WorkerRows, runs: RunRows, key: string): Outcome {
    if key == "" then ArgumentRequired
    else if key !in workers then WorkerNotFound
    else if workers[key].runID !in runs then RunNotFound
    else Done
  }

  function DispatchOutcome(workers: WorkerRows, runs: RunRows, key: string, prompt: string, pathThere: bool): Outcome {
    if key == "" || Blank(prompt) then ArgumentRequired
    else if Lookup(workers, runs, key) != Done then Lookup(workers, runs, key)
    else if IsWorkerActive(workers[key].status) then AlreadyActive
    else if !pathThere then PathUnavailable
    else Done
  }

  function PlanOutcome(workers: WorkerRows, key: string, pathThere: bool): Outcome {
    if key !in workers then WorkerNotFound
    else if !Free(workers[key].status) then AlreadyActive
    else if !pathThere then PathUnavailable
    else Done
  }

  function ContinueOutcome(workers: WorkerRows, key: string): Outcome {
    if key !in workers then WorkerNotFound else if !Continuable(workers[key]) then NotAllowed else Done
  }

  /** A worker that waits and has on record what it waits for. */
  predicate Decidable(w: Worker) {
    ApprovalRequired(w) && w.approval.Some?
  }

  function DecideOutcome(workers: WorkerRows, runs: RunRows, key: string): Outcome {
    if Lookup(workers, runs, key) != Done then Lookup(workers, runs, key)
    else if !Decidable(workers[key]) then NothingToDecide
    else Done
  }

  function NudgeOutcome(workers: WorkerRows, runs: RunRows, key: string, n: Nudge): Outcome {
    if n.Steer? && Blank(n.note) then ArgumentRequired
    else if Lookup(workers, runs, key) != Done then Lookup(workers, runs, key)
    else if !NudgeAllowed(workers[key], n) then NotAllowed
    else Done
  }

  function RemoveOutcome(workers: WorkerRows, key: string): Outcome {
    if key == "" then ArgumentRequired
    else if key !in workers then WorkerNotFound
    else if IsWorkerActive(workers[key].status) then AlreadyActive
    else Done
  }

  ghost predicate WorkersAwait(workers: WorkerRows, runID: string) {
    exists id :: id in workers && workers[id].runID == runID && ApprovalRequired(workers[id])
  }

  predicate OwnAwaits(run: Run) {
    run.approvalState.Some? && TrimSpace(run.approvalState.value) == REQUIRED
  }

  /** Some worker of the run, or the run itself, awaits an approval. */
  ghost predicate RunAwaits(workers: WorkerRows, run: Run) {
    WorkersAwait(workers, run.id) || OwnAwaits(run)
  }

  function StopReasonFor(awaits: bool): string {
    if awaits then STOP_FOR_APPROVAL else ""
  }

  class Store {
    var workers: WorkerRows
    var runs: RunRows

    method SaveWorker(w: Worker) returns (ok: bool)
      modifies this`workers
      ensures ok == (!Blank(w.id) && !Blank(w.runID) && w.status != "" && TrimSpace(w.id) in old(workers))
      ensures workers == if ok then old(workers)[TrimSpace(w.id) := Saved(WithTrimmedIds(w))] else old(workers)
    {
      if TrimSpace(w.id) == "" || TrimSpace(w.runID) == "" || w.status == "" {
        return false;
      }
      var approvalState := TrimSpace(w.approvalState);
      if w.approval.Some? && approvalState == "" {
        approvalState := TrimSpace(w.approval.value.state);
      }
      if TrimSpace(w.id) !in workers {
        return false;
      }
      workers := workers[TrimSpace(w.id) :=
        w.(id := TrimSpace(w.id), runID := TrimSpace(w.runID),
           threadID := TrimSpace(w.threadID), turnID := TrimSpace(w.turnID),
           turnStatus := TrimSpace(w.turnStatus), approvalState := approvalState)];
      return true;
    }

    /** The workers of a run, in some order. */
    method ListWorkers(runID: string) returns (found: seq<Worker>)
      requires runID != ""
      ensures forall w :: w in found <==> exists id :: id in workers && workers[id] == w && w.runID == runID
    {
      found := [];
      var rest := workers.Keys;
      while rest != {}
        invariant rest <= workers.Keys
        invariant forall w :: w in found <==>
          exists id :: id in workers.Keys - rest && workers[id] == w && w.runID == runID
      {
        var id :| id in rest;
        ghost var done := workers.Keys - rest;
        rest := rest - {id};
        assert workers.Keys - rest == done + {id};
        if workers[id].runID == runID {
          found := found + [workers[id]];
        }
      }
    }

    /** `withControlledWorker`: the worker and its run, or why not. */
    method ControlledWorker(workerID: string) returns (err: Outcome, worker: Option<Worker>)
      ensures err == Lookup(workers, runs, TrimSpace(workerID))
      ensures worker == if err == Done then Some(workers[TrimSpace(workerID)]) else None
    {
      var key := TrimSpace(workerID);
      if key == "" {
        return ArgumentRequired, None;
      }
      if key !in workers {
        return WorkerNotFound, None;
      }
      if workers[key].runID !in runs {
        return RunNotFound, None;
      }
      return Done, Some(workers[key]);
    }

    // ----- dispatch: read, mark, finish -----

    method ReadForDispatch(workerID: string, prompt: string, pathThere: bool)
      returns (err: Outcome, copy: Option<Worker>)
      ensures err == DispatchOutcome(workers, runs, TrimSpace(workerID), prompt, pathThere)
      ensures copy == if err == Done then Some(workers[TrimSpace(workerID)]) else None
    {
      if TrimSpace(workerID) == "" || TrimSpace(prompt) == "" {
        return ArgumentRequired, None;
      }
      err, copy := ControlledWorker(workerID);
      if err != Done {
        return;
      }
      if IsWorkerActive(copy.value.status) {
        return AlreadyActive, None;
      }
      if !pathThere {
        return PathUnavailable, None;
      }
    }

    /** Marks the worker active from the copy read earlier, whatever the row says by now. */
    method MarkDispatch(copy: Worker) returns (ok: bool, local: Worker)
      requires KeyedIds(copy)
      modifies this`workers
      ensures local == Started(copy) && ok == (copy.id in old(workers))
      ensures workers == if ok then old(workers)[copy.id := Saved(Started(copy))] else old(workers)
    {
      local := copy.(status := EXECUTOR_ACTIVE);
      local := local.(turnStatus := IN_PROGRESS, approvalState := "");
      local := local.(interruptible := true, steerable := true);
      local := local.(approval := None, lastControl := None);
      ok := SaveWorker(local);
    }

    /** The executor's result is put into the local copy, and all of it is saved. */
    method FinishDispatch(local: Worker, r: TurnResult) returns (ok: bool)
      requires KeyedIds(local)
      modifies this`workers
      ensures ok == (local.id in old(workers))
      ensures workers == if ok then old(workers)[local.id := Saved(Finished(local, r))] else old(workers)
    {
      var worker := PutResult(local, r);
      ok := SaveWorker(worker);
    }

    static method PutResult(local: Worker, r: TurnResult) returns (worker: Worker)
      ensures worker == Finished(local, r)
    {
      worker := local;
      if r.approvalState == REQUIRED || r.turnStatus == APPROVAL_REQUIRED {
        worker := worker.(status := APPROVAL_REQUIRED);
      } else if r.failed || r.turnStatus == FAILED || r.turnStatus == INTERRUPTED {
        worker := worker.(status := FAILED);
      } else {
        worker := worker.(status := COMPLETED);
      }
      worker := worker.(threadID := TrimSpace(r.threadID), turnID := TrimSpace(r.turnID), turnStatus := r.turnStatus);
      worker := worker.(approvalState := r.approvalState, approval := ApprovalOf(r));
      worker := worker.(interruptible := r.interruptible, steerable := r.steerable);
      if TrimSpace(worker.turnStatus) == "" {
        worker := worker.(turnStatus := worker.status);
      }
    }

    // ----- approve and deny: read, save, list, write -----

    method ReadForDecision(workerID: string) returns (err: Outcome, copy: Option<Worker>)
      ensures err == DecideOutcome(workers, runs, TrimSpace(workerID))
      ensures copy == if err == Done then Some(workers[TrimSpace(workerID)]) else None
    {
      err, copy := ControlledWorker(workerID);
      if err != Done {
        return;
      }
      if !ApprovalRequired(copy.value) || copy.value.approval == None {
        return NothingToDecide, None;
      }
    }

    method SaveDecision(copy: Worker, d: Decision) returns (ok: bool)
      requires KeyedIds(copy) && copy.approval.Some?
      modifies this`workers
      ensures ok == (copy.id in old(workers))
      ensures workers == if ok then old(workers)[copy.id := Saved(Decided(copy, d))] else old(workers)
    {
      var worker := copy.(status := EXECUTOR_ACTIVE, turnStatus := IN_PROGRESS);
      worker := worker.(approvalState := DecisionState(d), interruptible := true, steerable := true);
      worker := worker.(approval := Some(worker.approval.value.(state := DecisionState(d))));
      worker := worker.(lastControl := Some(ControlRecord(DecisionAction(d), "")));
      ok := SaveWorker(worker);
    }

    /** The listing half of `refreshWorkerRunStopReason`; `run` is the copy loaded before the
        decision was sent. */
    method AnyoneAwaits(run: Run) returns (awaits: bool)
      requires run.id != ""
      ensures awaits <==> WorkersAwait(workers, run.id) || OwnAwaits(run)
    {
      var found := ListWorkers(run.id);
      for i := 0 to |found|
        invariant forall j :: 0 <= j < i ==> !ApprovalRequired(found[j])
      {
        if ApprovalRequired(found[i]) {
          assert found[i] in found;
          return true;
        }
      }
      assert forall id :: id in workers && workers[id].runID == run.id ==> workers[id] in found;
      return run.approvalState.Some? && TrimSpace(run.approvalState.value) == REQUIRED;
    }

    /** Its writing half. */
    method WriteStopReason(runID: string, awaits: bool)
      requires runID in runs
      modifies this`runs
      ensures runs == old(runs)[runID := old(runs)[runID].(stopReason := StopReasonFor(awaits))]
    {
      if awaits {
        runs := runs[runID := runs[runID].(stopReason := STOP_FOR_APPROVAL)];
      } else {
        runs := runs[runID := runs[runID].(stopReason := "")];
      }
    }

    /** Undisturbed, the two halves settle the run's stop reason as its copy sees it. */
    method RefreshWorkerRunStopReason(run: Run)
      requires run.id in runs && run.id != ""
      modifies this`runs
      ensures runs == old(runs)[run.id := old(runs)[run.id].(stopReason := StopReasonFor(RunAwaits(workers, run)))]
    {
      var awaits := AnyoneAwaits(run);
      WriteStopReason(run.id, awaits);
    }

    // ----- interrupt, kill, steer and remove: read, save -----

    method ReadForNudge(workerID: string, n: Nudge) returns (err: Outcome, copy: Option<Worker>)
      ensures err == NudgeOutcome(workers, runs, TrimSpace(workerID), n)
      ensures copy == if err == Done then Some(workers[TrimSpace(workerID)]) else None
    {
      if n.Steer? && TrimSpace(n.note) == "" {
        return ArgumentRequired, None;
      }
      err, copy := ControlledWorker(workerID);
      if err == Done && !NudgeAllowed(copy.value, n) {
        return NotAllowed, None;
      }
    }

    method SaveNudge(copy: Worker, n: Nudge) returns (ok: bool)
      requires KeyedRow(copy.id, copy)
      modifies this`workers
      ensures ok == (copy.id in old(workers))
      ensures workers == if ok then old(workers)[copy.id := Saved(Nudged(copy, n))] else old(workers)
      ensures ok ==> SameButControl(workers[copy.id], copy)
    {
      NudgedRow(copy, n);
      ok := SaveWorker(Nudged(copy, n));
    }

    method ReadForRemoval(workerID: string) returns (err: Outcome, copy: Option<Worker>)
      ensures err == RemoveOutcome(workers, TrimSpace(workerID))
      ensures copy == if err == Done then Some(workers[TrimSpace(workerID)]) else None
    {
      var key := TrimSpace(workerID);
      if key == "" {
        return ArgumentRequired, None;
      }
      if key !in workers {
        return WorkerNotFound, None;
      }
      if IsWorkerActive(workers[key].status) {
        return AlreadyActive, None;
      }
      return Done, Some(workers[key]);
    }

    method DeleteWorker(workerID: string) returns (ok: bool)
      modifies this`workers
      ensures ok == (!Blank(workerID) && TrimSpace(workerID) in old(workers))
      ensures workers == if ok then old(workers) - {TrimSpace(workerID)} else old(workers)
    {
      ok := TrimSpace(workerID) != "" && TrimSpace(workerID) in workers;
      if ok {
        workers := workers - {TrimSpace(workerID)};
      }
    }

    // ----- create -----

    /** The new row; its id is random. */
    method InsertWorker(id: string, runID: string) returns (copy: Worker)
      requires id !in workers && runID in runs && Trimmed(runID)
      modifies this`workers
      ensures copy == Created(id, runID) && workers == old(workers)[id := copy]
    {
      copy := Worker(id, TrimSpace(runID), CREATING, "", "", "", "", false, false, None, None);
      workers := workers[id := copy];
    }

    /** The worktree is there: the copy made at the insertion is saved as idle. */
    method SaveCreated(copy: Worker) returns (ok: bool)
      requires KeyedIds(copy)
      modifies this`workers
      ensures ok == (copy.id in old(workers))
      ensures workers == if ok then old(workers)[copy.id := Saved(Idled(copy))] else old(workers)
    {
      ok := SaveWorker(copy.(status := IDLE));
    }

    // ----- the planner's dispatches: read, prepare, launch, finish -----

    method ReadForPlan(key: string, pathThere: bool) returns (err: Outcome, copy: Option<Worker>)
      ensures err == PlanOutcome(workers, key, pathThere)
      ensures copy == if err == Done then Some(workers[key]) else None
    {
      if key !in workers {
        return WorkerNotFound, None;
      }
      if IsWorkerActive(workers[key].status) && workers[key].status != PENDING {
        return AlreadyActive, None;
      }
      if !pathThere {
        return PathUnavailable, None;
      }
      return Done, Some(workers[key]);
    }

    method SavePrepared(copy: Worker, status: string) returns (ok: bool, local: Worker)
      requires KeyedIds(copy) && status != ""
      modifies this`workers
      ensures local == Prepared(copy, status) && ok == (copy.id in old(workers))
      ensures workers == if ok then old(workers)[copy.id := Saved(Prepared(copy, status))] else old(workers)
    {
      local := copy.(status := status);
      local := local.(turnStatus := "", approvalState := "");
      local := local.(interruptible := false, steerable := false);
      local := local.(approval := None, lastControl := None);
      ok := SaveWorker(local);
    }

    method SaveLaunched(copy: Worker) returns (ok: bool, local: Worker)
      requires KeyedIds(copy)
      modifies this`workers
      ensures local == Launched(copy) && ok == (copy.id in old(workers))
      ensures workers == if ok then old(workers)[copy.id := Saved(Launched(copy))] else old(workers)
    {
      local := copy.(status := EXECUTOR_ACTIVE, turnStatus := IN_PROGRESS, approvalState := "");
      ok := SaveWorker(local);
    }

    method SaveUnstarted(copy: Worker) returns (ok: bool)
      requires KeyedIds(copy)
      modifies this`workers
      ensures ok == (copy.id in old(workers))
      ensures workers == if ok then old(workers)[copy.id := Saved(Unstarted(copy))] else old(workers)
    {
      ok := SaveWorker(copy.(status := FAILED));
    }

    // ----- the run loop -----

    /** `activeWorkerTurns`: the workers whose persisted turns the cycle takes up. */
    method ActiveWorkerTurns(runID: string) returns (active: seq<Worker>)
      requires runID != ""
      ensures forall w :: w in active <==>
        exists id :: id in workers && workers[id] == w && w.runID == runID && Continuable(w)
    {
      var found := ListWorkers(runID);
      active := [];
      for i := 0 to |found|
        invariant forall w :: w in active <==> w in found[..i] && Continuable(w)
      {
        assert found[..i + 1] == found[..i] + [found[i]];
        if Continuable(found[i]) {
          active := active + [found[i]];
        }
      }
      assert found[..|found|] == found;
    }
  }

  function WithTrimmedIds(w: Worker): Worker {
    w.(id := TrimSpace(w.id), runID := TrimSpace(w.runID))
  }

  // ----- what saving a changed row leaves -----

  lemma SavedKeeps(w: Worker)
    ensures var row := Saved(w);
      && row.id == w.id && row.runID == w.runID && row.status == w.status && row.approval == w.approval
      && row.lastControl == w.lastControl
  {
  }

  lemma SavedIsKeyed(w: Worker)
    requires KeyedIds(w)
    ensures KeyedRow(w.id, Saved(w))
  {
  }

  lemma SavedHasTurn(w: Worker)
    ensures HasTurn(Saved(w)) <==> HasTurn(w)
  {
  }

  lemma NudgedRow(w: Worker, n: Nudge)
    requires KeyedRow(w.id, w)
    ensures Saved(Nudged(w, n)) == Nudged(w, n)
  {
  }

  lemma DecidedRow(w: Worker, d: Decision)
    ensures var row := Saved(Decided(w, d)); row.approvalState == DecisionState(d) && !ApprovalRequired(row)
  {
    assert Trimmed(DecisionState(d));
  }

  lemma StartedRow(w: Worker)
    ensures var row := Saved(Started(w)); row.approvalState == "" && !ApprovalRequired(row)
  {
    assert TrimSpace("") == "";
  }

  lemma FinishedStatus(w: Worker, r: TurnResult)
    ensures var row := Saved(Finished(w, r));
      row.id == w.id && row.status == StatusAfter(r) && row.approval == ApprovalOf(r)
  {
  }

  lemma SavedRowIsTrimmed(w: Worker)
    requires KeyedRow(w.id, w)
    ensures TrimSpace(w.approvalState) == w.approvalState
  {
  }

  // ----- approval states -----

  /** Neither the state nor the approval record asks for an approval that the status does not. */
  ghost predicate Meaningful(w: Worker) {
    w.approvalState == REQUIRED || RecordAsks(w) ==> w.status == APPROVAL_REQUIRED
  }

  predicate RecordAsks(w: Worker) {
    w.approval.Some? && TrimSpace(w.approval.value.state) == REQUIRED
  }

  /** A result breaks the link between state and status exactly when its approval state is
      "required" with white space around it and its turn status is not `approval_required`. */
  lemma FinishIsMeaningfulExactly(w: Worker, r: TurnResult)
    ensures Meaningful(Saved(Finished(w, r)))
      <==> !(TrimSpace(r.approvalState) == REQUIRED && r.approvalState != REQUIRED && r.turnStatus != APPROVAL_REQUIRED)
  {
    assert Trimmed(REQUIRED) && TrimSpace("") == "";
  }
}
