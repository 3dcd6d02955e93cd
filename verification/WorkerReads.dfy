/** What the worker commands admit and what they leave in a row, in the words the table holds: said
    of the row that was read and of the executor's result, and of nothing the commands compute. */
module WorkerReads {
  import opened Text
  import opened Workers

  /** The literals trimming leaves alone. */
  lemma PlainWords(word: string)
    requires word in {"", "in_progress", "granted", "denied", "failed", "completed", "approval_required", "required"}
    ensures TrimSpace(word) == word
  {
    assert Trimmed(word);
  }

  // ----- what a row says -----

  predicate Busy(status: string) {
    status in {"creating", "pending", "assigned", "executor_active", "approval_required"}
  }

  lemma BusyReads(status: string)
    ensures IsWorkerActive(status) <==> Busy(status)
    ensures Free(status) <==> !(Busy(status) && status != "pending")
  {
  }

  /** A wait shows in the approval state or in the status. */
  predicate WaitsForApproval(w: Worker) {
    TrimSpace(w.approvalState) == "required" || w.status == "approval_required"
  }

  lemma WaitingReads(w: Worker)
    ensures ApprovalRequired(w) <==> WaitsForApproval(w)
  {
  }

  /** What can be done to the turn of a worker. */
  lemma TurnReads(w: Worker)
    ensures Interruptible(w)
      <==> && TrimSpace(w.turnID) != ""
           && (w.interruptible || TrimSpace(w.turnStatus) in {"in_progress", "approval_required"})
    ensures Steerable(w)
      <==> && TrimSpace(w.turnID) != "" && !WaitsForApproval(w)
           && (w.steerable || TrimSpace(w.turnStatus) == "in_progress")
    ensures Continuable(w)
      <==> && TrimSpace(w.threadID) != "" && TrimSpace(w.turnID) != ""
           && w.status in {"executor_active", "approval_required"}
  {
  }

  // ----- what the commands admit -----

  /** Why a worker cannot be loaded for a command, the first reason that holds. */
  lemma LookupReads(workers: WorkerRows, runs: RunRows, key: string)
    ensures var r := Lookup(workers, runs, key);
      && (r == ArgumentRequired <==> key == "")
      && (r == WorkerNotFound <==> key != "" && key !in workers)
      && (r == RunNotFound <==> key != "" && key in workers && workers[key].runID !in runs)
      && (r == Done <==> key != "" && key in workers && workers[key].runID in runs)
  {
  }

  /** A worker can be dispatched exactly when it and its run are there, nothing is going on in it and
      its worktree is there; what stands in the way is reported in this order. */
  lemma DispatchReads(workers: WorkerRows, runs: RunRows, key: string, prompt: string, pathThere: bool)
    ensures var r := DispatchOutcome(workers, runs, key, prompt, pathThere);
      var asked := key != "" && TrimSpace(prompt) != "";
      var loaded := key in workers && workers[key].runID in runs;
      && (r == ArgumentRequired <==> !asked)
      && (r == WorkerNotFound <==> asked && key !in workers)
      && (r == RunNotFound <==> asked && key in workers && !loaded)
      && (r == AlreadyActive <==> asked && loaded && Busy(workers[key].status))
      && (r == PathUnavailable <==> asked && loaded && !Busy(workers[key].status) && !pathThere)
      && (r == Done <==> asked && loaded && !Busy(workers[key].status) && pathThere)
  {
  }

  /** The planner's dispatches also take a worker that is queued, and do not look at the run. */
  lemma PlanReads(workers: WorkerRows, key: string, pathThere: bool)
    ensures var r := PlanOutcome(workers, key, pathThere);
      && (r == WorkerNotFound <==> key !in workers)
      && (r == AlreadyActive <==> key in workers && Busy(workers[key].status) && workers[key].status != "pending")
      && (r == Done <==> && key in workers && (!Busy(workers[key].status) || workers[key].status == "pending")
                         && pathThere)
      && (r == PathUnavailable <==> r !in {WorkerNotFound, AlreadyActive} && !pathThere)
  {
  }

  /** The run loop takes up a worker with a whole turn on record that is running or waiting. */
  lemma ContinueReads(workers: WorkerRows, key: string)
    ensures var r := ContinueOutcome(workers, key);
      && (r == WorkerNotFound <==> key !in workers)
      && (r == Done <==> key in workers && Continuable(workers[key]))
      && r in {WorkerNotFound, NotAllowed, Done}
  {
  }

  /** A decision needs a wait and a record of what is waited for. */
  lemma DecideReads(workers: WorkerRows, runs: RunRows, key: string)
    ensures var r := DecideOutcome(workers, runs, key);
      var loaded := key != "" && key in workers && workers[key].runID in runs;
      && (!loaded ==> r == Lookup(workers, runs, key))
      && (r == Done <==> loaded && WaitsForApproval(workers[key]) && workers[key].approval.Some?)
      && (loaded ==> r in {NothingToDecide, Done})
  {
  }

  /** Killing asks for a turn, interrupting for one that can be interrupted, and steering for one that
      can be steered, and for a note. */
  lemma NudgeReads(workers: WorkerRows, runs: RunRows, key: string, n: Nudge)
    ensures var r := NudgeOutcome(workers, runs, key, n);
      var noted := n.Steer? ==> TrimSpace(n.note) != "";
      var loaded := key != "" && key in workers && workers[key].runID in runs;
      var allowed := loaded &&
        match n
        case Interrupt => Interruptible(workers[key])
        case Kill => TrimSpace(workers[key].turnID) != ""
        case Steer(_) => Steerable(workers[key]);
      && (!noted ==> r == ArgumentRequired)
      && (noted && !loaded ==> r == Lookup(workers, runs, key))
      && (noted && loaded ==> r == if allowed then Done else NotAllowed)
  {
  }

  lemma RemoveReads(workers: WorkerRows, key: string)
    ensures var r := RemoveOutcome(workers, key);
      && (r == ArgumentRequired <==> key == "")
      && (r == WorkerNotFound <==> key != "" && key !in workers)
      && (r == AlreadyActive <==> key != "" && key in workers && Busy(workers[key].status))
      && (r == Done <==> key != "" && key in workers && !Busy(workers[key].status))
  {
  }

  // ----- what the commands leave -----

  /** A save writes the texts trimmed, and the state of the approval record where there is no other;
      everything else as it is. */
  lemma SaveReads(w: Worker)
    ensures var row := Saved(w);
      && row.threadID == TrimSpace(w.threadID)
      && row.turnID == TrimSpace(w.turnID)
      && row.turnStatus == TrimSpace(w.turnStatus)
      && (!Blank(w.approvalState) ==> row.approvalState == TrimSpace(w.approvalState))
      && (Blank(w.approvalState) ==>
            row.approvalState == match w.approval case Some(record) => TrimSpace(record.state) case None => "")
      && row == w.(threadID := row.threadID, turnID := row.turnID, turnStatus := row.turnStatus,
                   approvalState := row.approvalState)
  {
  }

  /** The turn of a row, with nothing of an earlier approval. */
  predicate NoApproval(row: Worker) {
    row.approvalState == "" && row.approval == None
  }

  /** The ids, trimmed, are those of the row that was read. */
  predicate SameTurn(row: Worker, w: Worker) {
    row.id == w.id && row.runID == w.runID && row.threadID == TrimSpace(w.threadID) && row.turnID == TrimSpace(w.turnID)
  }

  /** A dispatch marks the row running, under whatever turn it had. */
  lemma StartReads(w: Worker)
    ensures var row := Saved(Started(w));
      && row.status == "executor_active" && row.turnStatus == "in_progress" && NoApproval(row) && SameTurn(row, w)
      && row.interruptible && row.steerable && row.lastControl == None
  {
    PlainWords("in_progress");
    PlainWords("");
  }

  /** The planner's assignment or queueing empties the turn. */
  lemma PrepareReads(w: Worker, status: string)
    ensures var row := Saved(Prepared(w, status));
      && row.status == status && row.turnStatus == "" && NoApproval(row) && SameTurn(row, w)
      && !row.interruptible && !row.steerable && row.lastControl == None
  {
    PlainWords("");
  }

  /** The planner's start of a turn keeps the record, and with it what the record says. */
  lemma LaunchReads(w: Worker)
    ensures var row := Saved(Launched(w));
      && row.status == "executor_active" && row.turnStatus == "in_progress" && SameTurn(row, w)
      && row.approval == w.approval && (w.approval == None ==> row.approvalState == "")
      && row.interruptible == w.interruptible && row.steerable == w.steerable && row.lastControl == w.lastControl
  {
    PlainWords("in_progress");
    PlainWords("");
  }

  lemma CreationReads(id: string, runID: string)
    ensures Created(id, runID) == Worker(
      id := id, runID := runID, status := "creating", threadID := "", turnID := "", turnStatus := "",
      approvalState := "", interruptible := false, steerable := false, approval := None, lastControl := None)
  {
  }

  /** Two saves change the status and nothing else of a row. */
  lemma StatusSavesRead(w: Worker)
    requires KeyedRow(w.id, w)
    ensures Saved(Idled(w)) == w.(status := "idle")
    ensures Saved(Unstarted(w)) == w.(status := "failed")
  {
  }

  /** The executor asks for approval. */
  predicate Asks(r: TurnResult) {
    r.approvalState == "required" || r.turnStatus == "approval_required"
  }

  /** It does not, and the turn failed or was interrupted. */
  predicate Broke(r: TurnResult) {
    !Asks(r) && (r.failed || r.turnStatus in {"failed", "interrupted"})
  }

  /** The end of a turn, read off its result alone. */
  lemma FinishReads(w: Worker, r: TurnResult)
    ensures var row := Saved(Finished(w, r));
      && (row.status == "approval_required" <==> Asks(r))
      && (row.status == "failed" <==> Broke(r))
      && (row.status == "completed" <==> !Asks(r) && !Broke(r))
      && row.turnStatus == (if Blank(r.turnStatus) then row.status else TrimSpace(r.turnStatus))
      && row.threadID == TrimSpace(r.threadID) && row.turnID == TrimSpace(r.turnID)
      && row.approvalState == TrimSpace(r.approvalState)
      && (row.approval == None <==> r.approval == None && r.approvalState == "")
      && (row.approval.Some? ==>
            && row.approval.value.state == r.approvalState
            && row.approval.value.details == match r.approval case Some(details) => details case None => "")
      && row.interruptible == r.interruptible && row.steerable == r.steerable
      && row.id == w.id && row.runID == w.runID && row.lastControl == w.lastControl
  {
    PlainWords("");
    FinishedTurnStatus(w, r);
  }

  lemma FinishedTurnStatus(w: Worker, r: TurnResult)
    ensures var row := Saved(Finished(w, r));
      row.turnStatus == if Blank(r.turnStatus) then row.status else TrimSpace(r.turnStatus)
  {
    if Asks(r) {
      PlainWords("approval_required");
    } else if Broke(r) {
      PlainWords("failed");
    } else {
      PlainWords("completed");
    }
  }

  /** A decision sets the turn going again and says which one it was, in the state, in the record and
      in the control record. */
  lemma DecisionReads(w: Worker, d: Decision)
    requires w.approval.Some?
    ensures var row := Saved(Decided(w, d));
      && row.status == "executor_active" && row.turnStatus == "in_progress" && SameTurn(row, w)
      && row.approvalState == (match d case Approve => "granted" case Deny => "denied")
      && row.approval == Some(Approval(row.approvalState, w.approval.value.details))
      && row.lastControl == Some(ControlRecord(match d case Approve => "approved" case Deny => "denied", ""))
      && row.interruptible && row.steerable
  {
    PlainWords("in_progress");
    PlainWords("granted");
    PlainWords("denied");
  }

  /** Interrupting, killing and steering leave a control record and nothing else. */
  lemma NudgeLeaves(w: Worker, n: Nudge)
    requires KeyedRow(w.id, w)
    ensures Saved(Nudged(w, n)) == w.(lastControl := Some(
      match n
      case Interrupt => ControlRecord("interrupted", "")
      case Kill => ControlRecord("kill_unsupported", "")
      case Steer(note) => ControlRecord("steered", TrimSpace(note))))
  {
    NudgedRow(w, n);
  }

  /** The stop reason a refresh writes. */
  lemma StopReasonReads(awaits: bool)
    ensures StopReasonFor(awaits) == match awaits case true => "executor_approval_required" case false => ""
  {
  }

  /** A run's own wait is in its own approval record. */
  lemma OwnWaitReads(run: Run)
    ensures OwnAwaits(run) <==>
      match run.approvalState case Some(text) => TrimSpace(text) == "required" case None => false
  {
  }
}
