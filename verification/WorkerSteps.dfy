/** The store methods perform the steps of the transition system: each event that reads or writes a
    table is the call of one method, and leaves the tables as the event does. */
module WorkerSteps {
  import opened Text
  import opened Workers
  import opened WorkerRaces

  ghost predicate Mirrors(store: Store, s: State)
    reads store
  {
    store.workers == s.workers && store.runs == s.runs
  }

  /** The reads of the commands that name a worker. */
  method ReadFor(store: Store, ghost s: State, workerID: string, cmd: Command)
    returns (err: Outcome, copy: Option<Worker>)
    requires Mirrors(store, s) && !cmd.Continue?
    ensures var key := if cmd.Assign? || cmd.Queue? || cmd.Launch? then workerID else TrimSpace(workerID);
      err == Admits(s, key, cmd) && copy == if err == Done then Some(s.workers[key]) else None
  {
    match cmd
    case Dispatch(prompt, pathThere) => err, copy := store.ReadForDispatch(workerID, prompt, pathThere);
    case Assign(pathThere) => err, copy := store.ReadForPlan(workerID, pathThere);
    case Queue(pathThere) => err, copy := store.ReadForPlan(workerID, pathThere);
    case Launch(pathThere) => err, copy := store.ReadForPlan(workerID, pathThere);
    case Decide(_) => err, copy := store.ReadForDecision(workerID);
    case Nudge(n) => err, copy := store.ReadForNudge(workerID, n);
    case Remove => err, copy := store.ReadForRemoval(workerID);
  }

  /** The run loop's read: the workers of its run that it takes up. */
  method ReadTurns(store: Store, ghost s: State, runID: string) returns (active: seq<Worker>)
    requires Mirrors(store, s) && runID != ""
    ensures forall id :: id in s.workers && s.workers[id].runID == runID && s.workers[id].id == id ==>
      (s.workers[id] in active <==> Admits(s, id, Continue) == Done)
  {
    active := store.ActiveWorkerTurns(runID);
    forall id | id in s.workers && s.workers[id].runID == runID && s.workers[id].id == id
      ensures s.workers[id] in active <==> Admits(s, id, Continue) == Done
    {
      assert Continuable(s.workers[id]) ==> s.workers[id] in active;
    }
  }

  /** The saves that claim or queue a worker. */
  method SaveTaken(store: Store, cmd: Command, copy: Worker) returns (local: Worker)
    requires KeyedIds(copy) && Takes(cmd)
    modifies store
    ensures store.runs == old(store.runs) && RowPut(Holding(cmd, copy, None, 0), Save(0)) == Some(local)
    ensures store.workers
         == if copy.id in old(store.workers) then old(store.workers)[copy.id := Saved(local)] else old(store.workers)
  {
    var ok: bool;
    if cmd.Dispatch? {
      ok, local := store.MarkDispatch(copy);
    } else if cmd.Assign? {
      ok, local := store.SavePrepared(copy, ASSIGNED);
    } else if cmd.Queue? {
      ok, local := store.SavePrepared(copy, PENDING);
    } else {
      ok, local := store.SaveLaunched(copy);
    }
  }

  /** The other commands' saves, and the deletion of a removal. */
  method SaveOther(store: Store, cmd: Command, copy: Worker, own: Option<bool>)
    requires KeyedRow(copy.id, copy) && !Takes(cmd) && (cmd.Decide? ==> copy.approval.Some?)
    modifies store
    ensures store.runs == old(store.runs)
    ensures var put := RowPut(Holding(cmd, copy, own, 0), Save(0));
      store.workers
      == if put.Some? && copy.id in old(store.workers) then old(store.workers)[copy.id := Saved(put.value)]
         else if cmd.Remove? then old(store.workers) - {copy.id} else old(store.workers)
  {
    var ok: bool;
    if cmd.Decide? {
      if own.Some? {
        ok := store.SaveDecision(copy, cmd.d);
      }
    } else if cmd.Nudge? {
      ok := store.SaveNudge(copy, cmd.n);
    } else if cmd.Remove? {
      ok := store.DeleteWorker(copy.id);
    }
  }

  /** A move of a command, by what it puts or deletes. */
  lemma MoveWrites(s: State, p: nat, e: Event)
    requires p in s.procs && (e.Save? || e.Fail? || e.Finish?) && e.p == p
    ensures var put, t := RowPut(s.procs[p], e), Apply(s, e);
      && t.runs == s.runs
      && (put.Some? ==>
           t.workers
           == if put.value.id in s.workers then s.workers[put.value.id := Saved(put.value)] else s.workers)
      && (put == None && !Deletes(s.procs[p], e) ==> t.workers == s.workers)
      && (put == None && Deletes(s.procs[p], e) ==> t.workers == s.workers - {Subject(s.procs[p]).value.id})
  {
    MoveStep(s, e);
  }

  method PerformSave(store: Store, ghost s: State, p: nat, proc: Proc)
    requires Mirrors(store, s) && p in s.procs && s.procs[p] == proc && WrittenProc(proc)
    modifies store
    ensures Mirrors(store, Apply(s, Save(p)))
  {
    MoveWrites(s, p, Save(p));
    var ok: bool, local: Worker;
    match proc
    case Holding(cmd, copy, own, since) =>
      HeldPut(proc, since);
      if Takes(cmd) {
        local := SaveTaken(store, cmd, copy);
      } else {
        SaveOther(store, cmd, copy, own);
      }
    case Engaged(job, local_, _) =>
      if job.Creation? {
        ok := store.SaveCreated(local_);
      } else if job.Assignment? {
        ok, local := store.SaveLaunched(local_);
      }
    case _ =>
  }

  /** The time of a read does not matter to what is put. */
  lemma HeldPut(proc: Proc, since: nat)
    requires proc.Holding? && proc.since == since
    ensures RowPut(proc, Save(0)) == RowPut(Holding(proc.cmd, proc.copy, proc.own, 0), Save(0))
    ensures Takes(proc.cmd) ==> RowPut(proc, Save(0)) == RowPut(Holding(proc.cmd, proc.copy, None, 0), Save(0))
    ensures forall p :: RowPut(proc, Save(p)) == RowPut(proc, Save(0))
    ensures RowPut(proc, Save(0)).Some? ==> RowPut(proc, Save(0)).value.id == proc.copy.id
    ensures Deletes(proc, Save(0)) <==> proc.cmd.Remove?
    ensures proc.cmd.Remove? ==> RowPut(proc, Save(0)) == None
  {
  }

  method PerformFail(store: Store, ghost s: State, p: nat, proc: Proc)
    requires Mirrors(store, s) && p in s.procs && s.procs[p] == proc && WrittenProc(proc)
    modifies store
    ensures Mirrors(store, Apply(s, Fail(p)))
  {
    MoveWrites(s, p, Fail(p));
    var ok: bool;
    match proc
    case Holding(cmd, copy, _, _) =>
      if cmd.Launch? {
        ok := store.SaveUnstarted(copy);
      }
    case Engaged(job, local, _) =>
      if job.Creation? {
        ok := store.DeleteWorker(local.id);
      } else if job.Assignment? {
        ok := store.SaveUnstarted(local);
      }
    case _ =>
  }

  method PerformFinish(store: Store, ghost s: State, p: nat, proc: Proc, r: TurnResult)
    requires Mirrors(store, s) && p in s.procs && s.procs[p] == proc && WrittenProc(proc)
    modifies store
    ensures Mirrors(store, Apply(s, Finish(p, r)))
  {
    MoveWrites(s, p, Finish(p, r));
    var ok: bool;
    match proc
    case Engaged(job, local, _) =>
      if job.Turn? {
        ok := store.FinishDispatch(local, r);
      }
    case Continuing(local) => ok := store.FinishDispatch(local, r);
    case _ =>
  }

  method PerformCreate(store: Store, ghost s: State, p: nat, id: string, runID: string)
    requires Mirrors(store, s) && Creates(s, Create(p, id, runID)) && Trimmed(runID)
    modifies store
    ensures Mirrors(store, Apply(s, Create(p, id, runID)))
  {
    CreateStep(s, Create(p, id, runID));
    var copy := store.InsertWorker(id, runID);
  }

  /** The listing goes by the run as it was loaded, not as it is. */
  method PerformList(store: Store, ghost s: State, p: nat, loaded: Run) returns (awaits: bool)
    requires Mirrors(store, s) && loaded.id != ""
    requires p in s.procs && s.procs[p] == Refreshing(loaded.id, OwnAwaits(loaded))
    ensures p in Apply(s, List(p)).procs && Apply(s, List(p)).procs[p] == Listed(loaded.id, awaits)
  {
    awaits := store.AnyoneAwaits(loaded);
  }

  method PerformWrite(store: Store, ghost s: State, p: nat, runID: string, awaits: bool)
    requires Mirrors(store, s) && p in s.procs && s.procs[p] == Listed(runID, awaits) && runID in s.runs
    modifies store
    ensures Mirrors(store, Apply(s, Write(p)))
  {
    store.WriteStopReason(runID, awaits);
  }
}
