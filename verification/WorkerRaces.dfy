/** Everything that writes the worker table, in separate processes, interleaved store call by store
    call.  Whoever writes has read a worker earlier, saves from the copy it read, and may die at any
    point; nothing locks the tables in between. */
module WorkerRaces {
  import opened Text
  import opened Workers

  // ----- the transition system -----

  datatype Command =
    | Dispatch(prompt: string, pathThere: bool)
    | Assign(pathThere: bool)                  // the planner's dispatch: assigned first, then launched
    | Queue(pathThere: bool)                   // the planner's plan: queued, and launched by a later command
    | Launch(pathThere: bool)
    | Continue                                 // the run loop takes up the worker's persisted turn
    | Decide(d: Decision)
    | Nudge(n: Workers.Nudge)
    | Remove

  /** What a command that has claimed its worker is at. */
  datatype Job = Creation | Assignment | Turn

  /** A command under way; `since` is when it read or claimed its worker. */
  datatype Proc =
    | Holding(cmd: Command, copy: Worker, own: Option<bool>, since: nat)   // has read, has not saved
    | Engaged(job: Job, local: Worker, since: nat)
    | Continuing(local: Worker)                // the run loop's turn, which claims nothing
    | Refreshing(runID: string, copyAwaits: bool)   // has saved a decision
    | Listed(runID: string, awaits: bool)      // has listed the run's workers

  datatype State = State(workers: WorkerRows, runs: RunRows, procs: map<nat, Proc>, clock: nat)

  /** `Load` reads the run of a decision, and with it whether that run awaits an approval of its
      own; `Fail` is a worktree or an executor that is missing.  The last two are other writers of
      the run: the executor's own commands and turns, and the run loops. */
  datatype Event =
    | Read(p: nat, key: string, cmd: Command)
    | Load(p: nat)
    | Create(p: nat, id: string, runID: string)
    | Save(p: nat)
    | Fail(p: nat)
    | Finish(p: nat, result: TurnResult)
    | List(p: nat)
    | Write(p: nat)
    | Abort(p: nat)
    | SaveExecutorState(run: string, approvalState: Option<string>)
    | SaveReason(run: string, reason: string)

  predicate ByCommand(e: Event) {
    !e.SaveExecutorState? && !e.SaveReason?
  }

  /** Whether a command goes on after its read. */
  function Admits(s: State, key: string, cmd: Command): Outcome {
    match cmd
    case Dispatch(prompt, pathThere) => DispatchOutcome(s.workers, s.runs, key, prompt, pathThere)
    case Assign(pathThere) => PlanOutcome(s.workers, key, pathThere)
    case Queue(pathThere) => PlanOutcome(s.workers, key, pathThere)
    case Launch(pathThere) => PlanOutcome(s.workers, key, pathThere)
    case Continue => ContinueOutcome(s.workers, key)
    case Decide(_) => DecideOutcome(s.workers, s.runs, key)
    case Nudge(n) => NudgeOutcome(s.workers, s.runs, key, n)
    case Remove => RemoveOutcome(s.workers, key)
  }

  /** The row a command saves next, before the save trims it. */
  function RowPut(proc: Proc, e: Event): Option<Worker> {
    if proc.Holding? then
      if e.Save? then
        match proc.cmd
        case Dispatch(_, _) => Some(Started(proc.copy))
        case Assign(_) => Some(Prepared(proc.copy, ASSIGNED))
        case Queue(_) => Some(Prepared(proc.copy, PENDING))
        case Launch(_) => Some(Launched(proc.copy))
        case Decide(d) => if proc.own == None then None else Some(Decided(proc.copy, d))
        case Nudge(n) => Some(Nudged(proc.copy, n))
        case _ => None
      else if e.Fail? && proc.cmd.Launch? then Some(Unstarted(proc.copy))
      else None
    else if proc.Engaged? then
      if e.Save? && proc.job.Creation? then Some(Idled(proc.local))
      else if e.Save? && proc.job.Assignment? then Some(Launched(proc.local))
      else if e.Fail? && proc.job.Assignment? then Some(Unstarted(proc.local))
      else if e.Finish? && proc.job.Turn? then Some(Finished(proc.local, e.result))
      else None
    else if proc.Continuing? && e.Finish? then Some(Finished(proc.local, e.result))
    else None
  }

  /** What the command is at after that save. */
  function Next(proc: Proc, e: Event, clock: nat): Option<Proc> {
    if proc.Holding? && e.Save? then
      match proc.cmd
      case Dispatch(_, _) => Some(Engaged(Turn, Started(proc.copy), clock))
      case Assign(_) => Some(Engaged(Assignment, Prepared(proc.copy, ASSIGNED), clock))
      case Launch(_) => Some(Engaged(Turn, Launched(proc.copy), clock))
      case Decide(_) => if proc.own == None then None else Some(Refreshing(proc.copy.runID, proc.own.value))
      case _ => None
    else if proc.Engaged? && proc.job.Assignment? && e.Save? then Some(Engaged(Turn, Launched(proc.local), proc.since))
    else None
  }

  /** A deletion: a remove, or a creation without its worktree. */
  predicate Deletes(proc: Proc, e: Event) {
    (proc.Holding? && proc.cmd.Remove? && e.Save?) || (proc.Engaged? && proc.job.Creation? && e.Fail?)
  }

  function Subject(proc: Proc): Option<Worker> {
    match proc
    case Holding(_, copy, _, _) => Some(copy)
    case Engaged(_, local, _) => Some(local)
    case Continuing(local) => Some(local)
    case _ => None
  }

  predicate Concerns(proc: Proc, id: string) {
    Subject(proc).Some? && Subject(proc).value.id == id
  }

  /** Random ids do not come twice. */
  ghost predicate FreshId(s: State, id: string) {
    && id != "" && Trimmed(id) && id !in s.workers
    && forall q :: q in s.procs ==> !Concerns(s.procs[q], id)
  }

  function Without(s: State, p: nat): State {
    s.(procs := s.procs - {p})
  }

  function Becomes(s: State, p: nat, next: Option<Proc>): State {
    if next.Some? then s.(procs := s.procs[p := next.value]) else Without(s, p)
  }

  /** A save, a failure or a finish; a save on a row that is gone ends its command. */
  function Moves(s: State, p: nat, e: Event): State
    requires p in s.procs
  {
    var proc := s.procs[p];
    var row := RowPut(proc, e);
    if row.Some? then
      if row.value.id !in s.workers then Without(s, p)
      else Becomes(s.(workers := s.workers[row.value.id := Saved(row.value)]), p, Next(proc, e, s.clock))
    else if Deletes(proc, e) then Without(s.(workers := s.workers - {Subject(proc).value.id}), p)
    else s
  }

  function Held(s: State, key: string, cmd: Command): Proc
    requires key in s.workers
  {
    if cmd.Continue? then Continuing(s.workers[key]) else Holding(cmd, s.workers[key], None, s.clock)
  }

  ghost function Act(s: State, e: Event): State {
    match e
    case Read(p, key, cmd) =>
      if p in s.procs || Admits(s, key, cmd) != Done then s else s.(procs := s.procs[p := Held(s, key, cmd)])
    case Load(p) =>
      if p in s.procs && s.procs[p].Holding? && s.procs[p].copy.runID in s.runs then
        s.(procs := s.procs[p := s.procs[p].(own := Some(OwnAwaits(s.runs[s.procs[p].copy.runID])))])
      else s
    case Create(p, id, runID) =>
      if p in s.procs || !FreshId(s, id) || runID !in s.runs then s
      else
        var row := Created(id, runID);
        s.(workers := s.workers[id := row], procs := s.procs[p := Engaged(Creation, row, s.clock)])
    case Save(p) => if p in s.procs then Moves(s, p, e) else s
    case Fail(p) => if p in s.procs then Moves(s, p, e) else s
    case Finish(p, _) => if p in s.procs then Moves(s, p, e) else s
    case List(p) =>
      if p in s.procs && s.procs[p].Refreshing? then
        var r := s.procs[p];
        s.(procs := s.procs[p := Listed(r.runID, WorkersAwait(s.workers, r.runID) || r.copyAwaits)])
      else s
    case Write(p) =>
      if p in s.procs && s.procs[p].Listed? && s.procs[p].runID in s.runs then
        var l := s.procs[p];
        Without(s.(runs := s.runs[l.runID := s.runs[l.runID].(stopReason := StopReasonFor(l.awaits))]), p)
      else s
    case Abort(p) => Without(s, p)
    case SaveExecutorState(run, approvalState) =>
      if run !in s.runs then s
      else s.(runs := s.runs[run := s.runs[run].(approvalState := approvalState, stopReason := "")])
    case SaveReason(run, reason) =>
      if run !in s.runs then s else s.(runs := s.runs[run := s.runs[run].(stopReason := reason)])
  }

  ghost function Apply(s: State, e: Event): State {
    Act(s, e).(clock := s.clock + 1)
  }

  ghost function After(s: State, events: seq<Event>): State
    decreases |events|
  {
    if events == [] then s else After(Apply(s, events[0]), events[1..])
  }

  // ----- steps as equations -----

  /** The event saves a row that is there. */
  predicate Puts(s: State, e: Event, row: Worker) {
    && (e.Save? || e.Fail? || e.Finish?) && e.p in s.procs
    && RowPut(s.procs[e.p], e) == Some(row) && row.id in s.workers
  }

  lemma MoveStep(s: State, e: Event)
    requires (e.Save? || e.Fail? || e.Finish?) && e.p in s.procs
    ensures Apply(s, e) == Moves(s, e.p, e).(clock := s.clock + 1)
  {
  }

  lemma PutMoves(s: State, e: Event, row: Worker, saved: Worker, next: Option<Proc>)
    requires Puts(s, e, row) && saved == Saved(row) && next == Next(s.procs[e.p], e, s.clock)
    ensures Moves(s, e.p, e) == Becomes(s.(workers := s.workers[row.id := saved]), e.p, next)
  {
  }

  lemma PutStep(s: State, e: Event, row: Worker)
    requires Puts(s, e, row)
    ensures var next := Next(s.procs[e.p], e, s.clock); var t := Apply(s, e);
      && t.workers == s.workers[row.id := Saved(row)] && t.runs == s.runs && t.clock == s.clock + 1
      && t.procs == (if next.Some? then s.procs[e.p := next.value] else s.procs - {e.p})
  {
    MoveStep(s, e);
    PutMoves(s, e, row, Saved(row), Next(s.procs[e.p], e, s.clock));
  }

  /** A missing executor fails the worker that is being launched, and a missing worktree takes the row
      of a creation away; then the command is over.  Nobody else can fail. */
  lemma FailureReads(s: State, p: nat)
    requires p in s.procs
    ensures var t := Apply(s, Fail(p));
      match s.procs[p]
      case Holding(Launch(_), copy, _, _) => t.workers == FailedIn(s.workers, copy) && t.procs == s.procs - {p}
      case Engaged(Assignment, local, _) => t.workers == FailedIn(s.workers, local) && t.procs == s.procs - {p}
      case Engaged(Creation, local, _) => t.workers == s.workers - {local.id} && t.procs == s.procs - {p}
      case _ => t.workers == s.workers && t.procs == s.procs
  {
    MoveStep(s, Fail(p));
  }

  function FailedIn(workers: WorkerRows, copy: Worker): WorkerRows {
    if copy.id in workers then workers[copy.id := Saved(copy.(status := "failed"))] else workers
  }

  /** A removal takes the row away, whatever it says by now, and a creation whose worktree is there
      makes it idle; then these commands are over. */
  lemma OnlySaveReads(s: State, p: nat)
    requires p in s.procs
    ensures var t := Apply(s, Save(p));
      match s.procs[p]
      case Holding(Remove, copy, _, _) => t.workers == s.workers - {copy.id} && t.procs == s.procs - {p}
      case Engaged(Creation, local, _) =>
        && t.procs == s.procs - {p}
        && t.workers == (if local.id in s.workers then s.workers[local.id := Saved(local.(status := "idle"))]
                         else s.workers)
      case Engaged(Turn, _, _) => t.workers == s.workers && t.procs == s.procs
      case Continuing(_) => t.workers == s.workers && t.procs == s.procs
      case Refreshing(_, _) => t.workers == s.workers && t.procs == s.procs
      case Listed(_, _) => t.workers == s.workers && t.procs == s.procs
      case _ => true
  {
    MoveStep(s, Save(p));
  }

  /** Who writes to a run, and what: a decision its stop reason, the executor's commands and turns the
      approval state together with no reason, and the run loops a reason. */
  lemma RunsAfterStep(s: State, e: Event)
    ensures var runs := Apply(s, e).runs;
      match e
      case Write(p) =>
        if p in s.procs && s.procs[p].Listed? && s.procs[p].runID in s.runs
        then runs == WithReason(s.runs, s.procs[p].runID,
                                if s.procs[p].awaits then "executor_approval_required" else "")
        else runs == s.runs
      case SaveExecutorState(id, approvalState) =>
        if id in s.runs then runs == s.runs[id := s.runs[id].(approvalState := approvalState, stopReason := "")]
        else runs == s.runs
      case SaveReason(id, reason) =>
        if id in s.runs then runs == WithReason(s.runs, id, reason) else runs == s.runs
      case _ => runs == s.runs
  {
    if (e.Save? || e.Fail? || e.Finish?) && e.p in s.procs {
      MoveStep(s, e);
    }
  }

  function WithReason(runs: RunRows, id: string, reason: string): RunRows
    requires id in runs
  {
    runs[id := runs[id].(stopReason := reason)]
  }

  /** A read that goes on. */
  predicate Reads(s: State, e: Event) {
    e.Read? && e.p !in s.procs && Admits(s, e.key, e.cmd) == Done && e.key in s.workers
  }

  lemma ReadStep(s: State, e: Event)
    requires e.Read?
    ensures Apply(s, e)
         == (if Reads(s, e) then s.(procs := s.procs[e.p := Held(s, e.key, e.cmd)]) else s).(clock := s.clock + 1)
  {
  }

  /** A creation that goes on. */
  ghost predicate Creates(s: State, e: Event) {
    e.Create? && e.p !in s.procs && FreshId(s, e.id) && e.runID in s.runs
  }

  lemma CreateStep(s: State, e: Event)
    requires Creates(s, e)
    ensures var row := Created(e.id, e.runID); var t := Apply(s, e);
      && t.workers == s.workers[e.id := row] && t.runs == s.runs && t.clock == s.clock + 1
      && t.procs == s.procs[e.p := Engaged(Creation, row, s.clock)]
  {
  }

  /** The other events put no row; they may delete one, end a command or move it along. */
  ghost predicate Minor(s: State, e: Event) {
    !Reads(s, e) && !Creates(s, e) && (forall row :: !Puts(s, e, row))
  }

  predicate MovesAlong(before: Proc, after: Proc) {
    || (before.Holding? && after.Holding? && after == before.(own := after.own))
    || (before.Refreshing? && after.Listed? && after.runID == before.runID)
  }

  lemma MinorStep(s: State, e: Event)
    requires Minor(s, e)
    ensures var t := Apply(s, e);
      && t.clock == s.clock + 1 && t.runs.Keys == s.runs.Keys
      && (forall id :: id in t.runs ==> t.runs[id].id == s.runs[id].id)
      && (forall id :: id in t.workers ==> id in s.workers && t.workers[id] == s.workers[id])
      && (forall q :: q in t.procs ==>
            q in s.procs && (t.procs[q] == s.procs[q] || MovesAlong(s.procs[q], t.procs[q])))
  {
    if (e.Save? || e.Fail? || e.Finish?) && e.p in s.procs {
      var row := RowPut(s.procs[e.p], e);
      assert row.Some? ==> !Puts(s, e, row.value);
    }
  }

  // ----- what every interleaving keeps -----

  /** The commands that claim or queue a worker, and accept only a free one. */
  predicate Takes(cmd: Command) {
    cmd.Dispatch? || cmd.Assign? || cmd.Queue? || cmd.Launch?
  }

  /** What a command under way has made sure of; ids, times and statuses only. */
  predicate SaneProc(runs: RunRows, clock: nat, proc: Proc) {
    match proc
    case Holding(cmd, copy, _, since) =>
      && since < clock && (Takes(cmd) ==> Free(copy.status)) && (cmd.Remove? ==> !IsWorkerActive(copy.status))
      && (cmd.Decide? ==> copy.runID in runs) && !cmd.Continue?
    case Engaged(job, local, since) => since < clock && !Free(local.status)
    case Continuing(local) => true
    case Refreshing(runID, _) => runID in runs
    case Listed(runID, _) => runID in runs
  }

  ghost predicate Sane(s: State) {
    && (forall id :: id in s.workers ==> s.workers[id].id == id)
    && (forall p :: p in s.procs ==> SaneProc(s.runs, s.clock, s.procs[p]))
  }

  /** Rows and copies are as a save writes them. */
  ghost predicate Written(s: State) {
    Keyed(s.workers, s.runs) && forall p :: p in s.procs ==> WrittenProc(s.procs[p])
  }

  ghost predicate WrittenProc(proc: Proc) {
    match proc
    case Holding(cmd, copy, _, _) => KeyedRow(copy.id, copy) && (cmd.Decide? ==> Decidable(copy))
    case Engaged(_, local, _) => KeyedIds(local)
    case Continuing(local) => KeyedRow(local.id, local)
    case _ => true
  }

  ghost predicate Base(s: State) {
    Sane(s) && Written(s)
  }

  ghost predicate Initially(s: State) {
    Keyed(s.workers, s.runs) && s.procs == map[]
  }

  /** What is known of the row a command saves and of the command after it. */
  lemma PutSubject(proc: Proc, e: Event, clock: nat, row: Worker)
    requires RowPut(proc, e) == Some(row)
    ensures Subject(proc).Some? && row.id == Subject(proc).value.id && row.runID == Subject(proc).value.runID
    ensures Subject(proc).value.status != "" ==> row.status != ""
    ensures var next := Next(proc, e, clock); next.Some? ==>
      (next.value.Engaged? && next.value.local == row) || next.value.Refreshing?
  {
  }

  lemma PutFacts(runs: RunRows, clock: nat, proc: Proc, e: Event, row: Worker)
    requires SaneProc(runs, clock, proc) && RowPut(proc, e) == Some(row)
    ensures Next(proc, e, clock).Some? ==> SaneProc(runs, clock + 1, Next(proc, e, clock).value)
  {
  }

  lemma AdmittedFacts(s: State, e: Event)
    requires Sane(s) && Reads(s, e)
    ensures SaneProc(s.runs, s.clock + 1, Held(s, e.key, e.cmd))
    ensures e.cmd.Decide? ==> Decidable(s.workers[e.key])
    ensures e.cmd.Continue? ==> Continuable(s.workers[e.key])
  {
  }

  lemma LaterIsSane(runs: RunRows, later: RunRows, clock: nat, proc: Proc)
    requires SaneProc(runs, clock, proc) && runs.Keys == later.Keys
    ensures SaneProc(later, clock + 1, proc)
  {
  }

  lemma AlongIsSane(runs: RunRows, later: RunRows, clock: nat, before: Proc, after: Proc)
    requires SaneProc(runs, clock, before) && runs.Keys == later.Keys && MovesAlong(before, after)
    ensures SaneProc(later, clock + 1, after)
  {
  }

  lemma PutKeepsSane(s: State, e: Event, row: Worker)
    requires Sane(s) && Puts(s, e, row)
    ensures Sane(Apply(s, e))
  {
    PutStep(s, e, row);
    SavedKeeps(row);
    PutSubject(s.procs[e.p], e, s.clock, row);
    PutFacts(s.runs, s.clock, s.procs[e.p], e, row);
    var t := Apply(s, e);
    forall q | q in t.procs ensures SaneProc(t.runs, t.clock, t.procs[q]) {
      if q != e.p {
        LaterIsSane(s.runs, t.runs, s.clock, s.procs[q]);
      }
    }
  }

  lemma ReadKeepsSane(s: State, e: Event)
    requires Sane(s) && Reads(s, e)
    ensures Sane(Apply(s, e))
  {
    ReadStep(s, e);
    AdmittedFacts(s, e);
    var t := Apply(s, e);
    forall q | q in t.procs ensures SaneProc(t.runs, t.clock, t.procs[q]) {
      if q != e.p {
        LaterIsSane(s.runs, t.runs, s.clock, s.procs[q]);
      }
    }
  }

  lemma CreateKeepsSane(s: State, e: Event)
    requires Sane(s) && Creates(s, e)
    ensures Sane(Apply(s, e))
  {
    CreateStep(s, e);
    var t := Apply(s, e);
    forall q | q in t.procs ensures SaneProc(t.runs, t.clock, t.procs[q]) {
      if q != e.p {
        LaterIsSane(s.runs, t.runs, s.clock, s.procs[q]);
      }
    }
  }

  lemma MinorKeepsSane(s: State, e: Event)
    requires Sane(s) && Minor(s, e)
    ensures Sane(Apply(s, e))
  {
    MinorStep(s, e);
    var t := Apply(s, e);
    forall q | q in t.procs ensures SaneProc(t.runs, t.clock, t.procs[q]) {
      if t.procs[q] == s.procs[q] {
        LaterIsSane(s.runs, t.runs, s.clock, s.procs[q]);
      } else {
        AlongIsSane(s.runs, t.runs, s.clock, s.procs[q], t.procs[q]);
      }
    }
  }

  lemma ApplyKeepsSane(s: State, e: Event)
    requires Sane(s)
    ensures Sane(Apply(s, e))
  {
    if Reads(s, e) {
      ReadKeepsSane(s, e);
    } else if Creates(s, e) {
      CreateKeepsSane(s, e);
    } else if row :| Puts(s, e, row) {
      PutKeepsSane(s, e, row);
    } else {
      MinorKeepsSane(s, e);
    }
  }

  lemma PutIsKeyed(proc: Proc, e: Event, clock: nat, row: Worker)
    requires WrittenProc(proc) && RowPut(proc, e) == Some(row)
    ensures KeyedIds(row) && (Next(proc, e, clock).Some? ==> WrittenProc(Next(proc, e, clock).value))
  {
    PutSubject(proc, e, clock, row);
    assert KeyedIds(Subject(proc).value);
  }

  lemma PutKeepsWritten(s: State, e: Event, row: Worker)
    requires Written(s) && Puts(s, e, row)
    ensures Written(Apply(s, e))
  {
    PutStep(s, e, row);
    PutIsKeyed(s.procs[e.p], e, s.clock, row);
    SavedIsKeyed(row);
    RowKeepsKeyed(s.workers, s.runs, row.id, Saved(row));
    var t := Apply(s, e);
    forall q | q in t.procs ensures WrittenProc(t.procs[q]) {}
  }

  lemma RowKeepsKeyed(workers: WorkerRows, runs: RunRows, id: string, row: Worker)
    requires Keyed(workers, runs) && KeyedRow(id, row)
    ensures Keyed(workers[id := row], runs)
  {
  }

  lemma ReadKeepsWritten(s: State, e: Event)
    requires Base(s) && Reads(s, e)
    ensures Written(Apply(s, e))
  {
    ReadStep(s, e);
    AdmittedFacts(s, e);
    var t := Apply(s, e);
    assert KeyedRow(e.key, s.workers[e.key]);
    forall q | q in t.procs ensures WrittenProc(t.procs[q]) {}
  }

  lemma CreatedRow(id: string, runID: string)
    requires id != "" && Trimmed(id) && runID != "" && Trimmed(runID)
    ensures KeyedRow(id, Created(id, runID))
  {
    assert TrimSpace("") == "";
  }

  lemma CreateKeepsWritten(s: State, e: Event)
    requires Written(s) && Creates(s, e) && Trimmed(e.runID)
    ensures Written(Apply(s, e))
  {
    CreateStep(s, e);
    CreatedRow(e.id, e.runID);
    RowKeepsKeyed(s.workers, s.runs, e.id, Created(e.id, e.runID));
    var t := Apply(s, e);
    forall q | q in t.procs ensures WrittenProc(t.procs[q]) {}
  }

  lemma MinorKeepsWritten(s: State, e: Event)
    requires Written(s) && Minor(s, e)
    ensures Written(Apply(s, e))
  {
    MinorStep(s, e);
    var t := Apply(s, e);
    forall q | q in t.procs ensures WrittenProc(t.procs[q]) {
      assert WrittenProc(s.procs[q]);
    }
    forall id | id in t.runs ensures t.runs[id].id == id && id != "" && Trimmed(id) {}
  }

  lemma ApplyKeepsWritten(s: State, e: Event)
    requires Base(s)
    ensures Written(Apply(s, e))
  {
    if Reads(s, e) {
      ReadKeepsWritten(s, e);
    } else if Creates(s, e) {
      CreateKeepsWritten(s, e);
    } else if row :| Puts(s, e, row) {
      PutKeepsWritten(s, e, row);
    } else {
      MinorKeepsWritten(s, e);
    }
  }

  lemma {:induction false} AfterKeepsBase(s: State, events: seq<Event>)
    requires Base(s)
    ensures Base(After(s, events))
    decreases |events|
  {
    if events != [] {
      ApplyKeepsSane(s, events[0]);
      ApplyKeepsWritten(s, events[0]);
      AfterKeepsBase(Apply(s, events[0]), events[1..]);
    }
  }

  lemma {:induction false} AfterConcat(s: State, a: seq<Event>, b: seq<Event>)
    ensures After(s, a + b) == After(After(s, a), b)
    decreases |a|
  {
    if a == [] {
      assert a + b == b;
    } else {
      assert (a + b)[1..] == a[1..] + b;
      AfterConcat(Apply(s, a[0]), a[1..], b);
    }
  }

  // ----- exclusive dispatch -----

  /** Command `q` has claimed this worker: it creates it, has assigned it, or runs its turn. */
  predicate Engages(s: State, q: nat, id: string) {
    q in s.procs && s.procs[q].Engaged? && s.procs[q].local.id == id
  }

  /** Command `p` holds a copy of this worker that a dispatch would accept. */
  predicate HoldsFree(s: State, p: nat, id: string) {
    p in s.procs && s.procs[p].Holding? && s.procs[p].copy.id == id && Free(s.procs[p].copy.status)
  }

  /** At most one command has claimed a worker, and no dispatch would accept a claimed worker. */
  ghost predicate Exclusive(s: State) {
    && (forall id, p, q :: Engages(s, p, id) && Engages(s, q, id) ==> p == q)
    && (forall id, p :: Engages(s, p, id) && id in s.workers ==> !Free(s.workers[id].status))
  }

  /** Who holds a free copy of a claimed worker has read it before the claim. */
  ghost predicate ReadsCameFirst(s: State) {
    forall id, p, q :: HoldsFree(s, p, id) && Engages(s, q, id) ==> s.procs[p].since < s.procs[q].since
  }

  /** Somebody has claimed this worker after command `p` read it. */
  ghost predicate ClaimedSince(s: State, p: nat, id: string)
    requires p in s.procs && s.procs[p].Holding?
  {
    exists q :: Engages(s, q, id) && s.procs[p].since < s.procs[q].since
  }

  /** The next event is one of two: a save other than a decision's from a free copy of a worker that
      was claimed after that copy was read; or the end of a turn that the run loop has taken up, not
      in a wait for approval, while the worker is claimed. */
  ghost predicate Crosses(s: State, e: Event) {
    exists row :: Puts(s, e, row) && CrossesWith(s, e, row)
  }

  ghost predicate CrossesWith(s: State, e: Event, row: Worker)
    requires Puts(s, e, row)
  {
    var proc := s.procs[e.p];
    || (proc.Holding? && !proc.cmd.Decide? && Free(proc.copy.status) && ClaimedSince(s, e.p, row.id))
    || (proc.Continuing? && !AsksForApproval(e.result) && exists q :: Engages(s, q, row.id))
  }

  /** What a save claims and whether it leaves the row free, for every kind of command. */
  lemma PutKind(runs: RunRows, clock: nat, proc: Proc, e: Event, row: Worker)
    requires SaneProc(runs, clock, proc) && RowPut(proc, e) == Some(row)
    ensures var next := Next(proc, e, clock); var claims := next.Some? && next.value.Engaged?;
      && (claims ==> !Free(row.status))
      && (proc.Holding? ==>
            (claims || Free(row.status) <==> !proc.cmd.Decide? && Free(proc.copy.status)))
      && (proc.Holding? && claims ==> next.value.since == clock)
      && (proc.Engaged? && claims ==> next.value.since == proc.since)
      && (proc.Continuing? ==> !claims && (Free(row.status) <==> !AsksForApproval(e.result)))
      && (proc.Holding? || proc.Engaged? || proc.Continuing?)
      && (next.Some? ==> !next.value.Holding?)
  {
  }

  /** A row put by command `p`, which then is at `next`. */
  lemma PutIsExclusiveExactly(s: State, t: State, p: nat, row: Worker, next: Option<Proc>)
    requires Exclusive(s) && p in s.procs && t.workers == s.workers[row.id := row]
    requires t.procs == (if next.Some? then s.procs[p := next.value] else s.procs - {p})
    requires next.Some? && next.value.Engaged? ==> next.value.local.id == row.id && !Free(row.status)
    requires s.procs[p].Engaged? ==> s.procs[p].local.id == row.id
    ensures Exclusive(t)
      <==> !((Free(row.status) || (next.Some? && next.value.Engaged?)) && exists q :: q != p && Engages(s, q, row.id))
  {
    forall id, q | q != p ensures Engages(t, q, id) <==> Engages(s, q, id) {}
    if next.Some? && next.value.Engaged? {
      assert Engages(t, p, row.id);
    }
  }

  /** Steps that put no row but perhaps delete one. */
  lemma MinorIsExclusive(s: State, t: State)
    requires Exclusive(s)
    requires forall id :: id in t.workers ==> id in s.workers && t.workers[id] == s.workers[id]
    requires forall q :: q in t.procs && t.procs[q].Engaged? ==> q in s.procs && t.procs[q] == s.procs[q]
    ensures Exclusive(t)
  {
    forall id, q ensures Engages(t, q, id) ==> Engages(s, q, id) {}
  }

  lemma CreateIsExclusive(s: State, t: State, p: nat, row: Worker, since: nat)
    requires Exclusive(s) && FreshId(s, row.id) && p !in s.procs && !Free(row.status)
    requires t.workers == s.workers[row.id := row] && t.procs == s.procs[p := Engaged(Creation, row, since)]
    ensures Exclusive(t)
  {
    forall id, q ensures Engages(t, q, id) <==> Engages(s, q, id) || (q == p && id == row.id) {}
    assert forall q :: Engages(s, q, row.id) ==> Concerns(s.procs[q], row.id);
  }

  lemma SaveIsExclusiveExactly(s: State, e: Event, row: Worker)
    requires Sane(s) && Exclusive(s) && ReadsCameFirst(s) && Puts(s, e, row)
    ensures Exclusive(Apply(s, e)) <==> !CrossesWith(s, e, row)
  {
    var proc := s.procs[e.p];
    PutStep(s, e, row);
    SavedKeeps(row);
    PutSubject(proc, e, s.clock, row);
    PutKind(s.runs, s.clock, proc, e, row);
    PutIsExclusiveExactly(s, Apply(s, e), e.p, Saved(row), Next(proc, e, s.clock));
    if proc.Engaged? {
      assert Engages(s, e.p, row.id);
    } else {
      forall q ensures Engages(s, q, row.id) ==> q != e.p {}
      if proc.Holding? && Free(proc.copy.status) {
        assert HoldsFree(s, e.p, row.id);
      }
    }
  }

  lemma StepIsExclusiveExactly(s: State, e: Event)
    requires Sane(s) && Exclusive(s) && ReadsCameFirst(s)
    ensures Exclusive(Apply(s, e)) <==> !Crosses(s, e)
  {
    var t := Apply(s, e);
    if row :| Puts(s, e, row) {
      SaveIsExclusiveExactly(s, e, row);
    } else if Reads(s, e) {
      ReadStep(s, e);
      MinorIsExclusive(s, t);
    } else if Creates(s, e) {
      CreateStep(s, e);
      CreateIsExclusive(s, t, e.p, Created(e.id, e.runID), s.clock);
    } else {
      MinorStep(s, e);
      MinorIsExclusive(s, t);
    }
  }

  /** A read comes after every claim that is out, and finds the worker taken. */
  lemma ReadComesLast(s: State, t: State, p: nat, next: Proc, key: string)
    requires Sane(s) && Exclusive(s) && ReadsCameFirst(s) && p !in s.procs && key in s.workers
    requires t.procs == s.procs[p := next] && !next.Engaged?
    requires next.Holding? ==> next.copy == s.workers[key]
    ensures ReadsCameFirst(t)
  {
    forall id, q ensures Engages(t, q, id) <==> Engages(s, q, id) {}
    forall id, q | q != p ensures HoldsFree(t, q, id) <==> HoldsFree(s, q, id) {}
  }

  /** A claim comes after every read that is out, unless its holder only goes on. */
  lemma ClaimComesLast(s: State, t: State, p: nat)
    requires Sane(s) && ReadsCameFirst(s)
    requires forall q :: q in t.procs && q != p ==> q in s.procs && t.procs[q] == s.procs[q]
    requires p in t.procs ==> !t.procs[p].Holding?
    requires p in t.procs && t.procs[p].Engaged? ==>
      t.procs[p].since == s.clock
      || (p in s.procs && s.procs[p].Engaged?
          && t.procs[p].since == s.procs[p].since && t.procs[p].local.id == s.procs[p].local.id)
    ensures ReadsCameFirst(t)
  {
    forall id, q | HoldsFree(t, q, id) ensures q != p && HoldsFree(s, q, id) {}
    forall id, q | q != p ensures Engages(t, q, id) ==> Engages(s, q, id) {}
    forall id | Engages(t, p, id) ensures t.procs[p].since == s.clock || Engages(s, p, id) {}
  }

  lemma AlongKeepsFirst(s: State, t: State)
    requires ReadsCameFirst(s)
    requires forall q :: q in t.procs ==>
      q in s.procs && (t.procs[q] == s.procs[q] || MovesAlong(s.procs[q], t.procs[q]))
    ensures ReadsCameFirst(t)
  {
    forall id, q
      ensures HoldsFree(t, q, id) ==> HoldsFree(s, q, id) && t.procs[q].since == s.procs[q].since
      ensures Engages(t, q, id) ==> Engages(s, q, id) && t.procs[q].since == s.procs[q].since
    {
    }
  }

  lemma StepKeepsReadsFirst(s: State, e: Event)
    requires Sane(s) && Exclusive(s) && ReadsCameFirst(s)
    ensures ReadsCameFirst(Apply(s, e))
  {
    var t := Apply(s, e);
    if row :| Puts(s, e, row) {
      PutStep(s, e, row);
      PutSubject(s.procs[e.p], e, s.clock, row);
      PutKind(s.runs, s.clock, s.procs[e.p], e, row);
      ClaimComesLast(s, t, e.p);
    } else if Reads(s, e) {
      ReadStep(s, e);
      ReadComesLast(s, t, e.p, Held(s, e.key, e.cmd), e.key);
    } else if Creates(s, e) {
      CreateStep(s, e);
      ClaimComesLast(s, t, e.p);
    } else {
      MinorStep(s, e);
      AlongKeepsFirst(s, t);
    }
  }

  ghost predicate ExclusiveThroughout(s: State, events: seq<Event>)
    decreases |events|
  {
    Exclusive(s) && (events != [] ==> ExclusiveThroughout(Apply(s, events[0]), events[1..]))
  }

  ghost predicate NeverCrosses(s: State, events: seq<Event>)
    decreases |events|
  {
    events != [] ==> !Crosses(s, events[0]) && NeverCrosses(Apply(s, events[0]), events[1..])
  }

  lemma {:induction false} ExclusiveExactlyFrom(s: State, events: seq<Event>)
    requires Sane(s) && Exclusive(s) && ReadsCameFirst(s)
    ensures ExclusiveThroughout(s, events) <==> NeverCrosses(s, events)
    decreases |events|
  {
    if events != [] {
      StepIsExclusiveExactly(s, events[0]);
      if !Crosses(s, events[0]) {
        ApplyKeepsSane(s, events[0]);
        StepKeepsReadsFirst(s, events[0]);
        ExclusiveExactlyFrom(Apply(s, events[0]), events[1..]);
      }
    }
  }

  /** Over every interleaving of all who write the worker table: at most one command has a worker in
      hand, and its row turns every other dispatch away, if and only if nobody but a decision saves
      from a free copy read before a claim that still stands, and no turn the run loop has taken up
      ends, other than in a wait for approval, beside a claim. */
  lemma DispatchIsExclusiveExactly(s: State, events: seq<Event>)
    requires Initially(s)
    ensures ExclusiveThroughout(s, events) <==> NeverCrosses(s, events)
  {
    ExclusiveExactlyFrom(s, events);
  }

  /** While it is exclusive, no dispatch and no removal of a claimed worker gets past its read. */
  lemma ClaimShutsOthersOut(s: State, q: nat, id: string, cmd: Command)
    requires Exclusive(s) && Engages(s, q, id) && (Takes(cmd) || cmd.Remove?)
    ensures Admits(s, id, cmd) != Done
  {
  }

  // ----- the races -----

  lemma AfterFirst(s: State, e: Event, rest: seq<Event>)
    ensures After(s, [e] + rest) == After(Apply(s, e), rest)
  {
    assert ([e] + rest)[1..] == rest;
  }

  lemma TwoSteps(s: State, a: Event, b: Event)
    ensures After(s, [a, b]) == Apply(Apply(s, a), b)
  {
    AfterFirst(s, a, [b]);
    AfterFirst(Apply(s, a), b, []);
    assert [a] + [b] == [a, b] && [b] + [] == [b];
  }

  lemma FourSteps(s: State, a: Event, b: Event, c: Event, d: Event)
    ensures After(s, [a, b, c, d]) == Apply(Apply(Apply(Apply(s, a), b), c), d)
  {
    TwoSteps(s, a, b);
    TwoSteps(After(s, [a, b]), c, d);
    AfterConcat(s, [a, b], [c, d]);
    assert [a, b] + [c, d] == [a, b, c, d];
  }

  lemma DispatchMarks(s: State, p: nat, cmd: Command, copy: Worker, own: Option<bool>, since: nat)
    requires p in s.procs && s.procs[p] == Holding(cmd, copy, own, since) && cmd.Dispatch? && copy.id in s.workers
    ensures var t := Apply(s, Save(p));
      && t.workers == s.workers[copy.id := Saved(Started(copy))] && t.runs == s.runs
      && t.procs == s.procs[p := Engaged(Turn, Started(copy), s.clock)]
  {
    PutStep(s, Save(p), Started(copy));
  }

  /** An idle worker of a known run. */
  predicate Idle(s: State, id: string) {
    && id != "" && id in s.workers && s.workers[id].id == id && s.workers[id].runID in s.runs
    && !IsWorkerActive(s.workers[id].status)
  }

  lemma IdleIsRead(s: State, p: nat, id: string, prompt: string)
    requires Idle(s, id) && !Blank(prompt) && p !in s.procs
    ensures var cmd := Dispatch(prompt, true);
      Apply(s, Read(p, id, cmd))
      == s.(procs := s.procs[p := Holding(cmd, s.workers[id], None, s.clock)], clock := s.clock + 1)
  {
    ReadStep(s, Read(p, id, Dispatch(prompt, true)));
  }

  /** The race the check does not prevent: two dispatches that both read an idle worker before
      either marks it are both in flight. */
  lemma TwoDispatchesRace(s: State, id: string, p: nat, q: nat, prompt: string)
    requires Idle(s, id) && !Blank(prompt) && p != q && p !in s.procs && q !in s.procs
    ensures var cmd := Dispatch(prompt, true);
      var t := After(s, [Read(p, id, cmd), Read(q, id, cmd), Save(p), Save(q)]);
      Engages(t, p, id) && Engages(t, q, id)
  {
    var cmd, w := Dispatch(prompt, true), s.workers[id];
    FourSteps(s, Read(p, id, cmd), Read(q, id, cmd), Save(p), Save(q));
    IdleIsRead(s, p, id, prompt);
    var s1 := Apply(s, Read(p, id, cmd));
    IdleIsRead(s1, q, id, prompt);
    var s2 := Apply(s1, Read(q, id, cmd));
    DispatchMarks(s2, p, cmd, w, None, s.clock);
    var s3 := Apply(s2, Save(p));
    DispatchMarks(s3, q, cmd, w, None, s1.clock);
  }

  lemma NudgeIsRead(s: State, p: nat, id: string, n: Workers.Nudge)
    requires NudgeOutcome(s.workers, s.runs, id, n) == Done && p !in s.procs
    ensures id in s.workers && Apply(s, Read(p, id, Nudge(n)))
         == s.(procs := s.procs[p := Holding(Nudge(n), s.workers[id], None, s.clock)], clock := s.clock + 1)
  {
    ReadStep(s, Read(p, id, Nudge(n)));
  }

  lemma IdleIsAdmitted(s: State, id: string, prompt: string)
    requires id != "" && id in s.workers && s.workers[id].runID in s.runs && !Blank(prompt)
    requires !IsWorkerActive(s.workers[id].status)
    ensures Admits(s, id, Dispatch(prompt, true)) == Done
  {
  }

  /** An interrupt, kill or steer that read the worker before the mark overwrites it, so that the
      next dispatch is let in beside the one in flight. */
  lemma StaleNudgeLosesTheMark(s: State, id: string, n: Workers.Nudge, p: nat, q: nat, prompt: string)
    requires Idle(s, id) && !Blank(prompt) && p != q && p !in s.procs && q !in s.procs
    requires NudgeOutcome(s.workers, s.runs, id, n) == Done
    ensures var cmd := Dispatch(prompt, true);
      var t := After(s, [Read(q, id, Nudge(n)), Read(p, id, cmd), Save(p), Save(q)]);
      Engages(t, p, id) && Admits(t, id, cmd) == Done
  {
    var cmd, w := Dispatch(prompt, true), s.workers[id];
    FourSteps(s, Read(q, id, Nudge(n)), Read(p, id, cmd), Save(p), Save(q));
    NudgeIsRead(s, q, id, n);
    var s1 := Apply(s, Read(q, id, Nudge(n)));
    IdleIsRead(s1, p, id, prompt);
    var s2 := Apply(s1, Read(p, id, cmd));
    DispatchMarks(s2, p, cmd, w, None, s1.clock);
    var s3 := Apply(s2, Save(p));
    NudgeLands(s3, q, n, w, None, s.clock);
    IdleIsAdmitted(Apply(s3, Save(q)), id, prompt);
  }

  lemma NudgeLands(s: State, p: nat, n: Workers.Nudge, copy: Worker, own: Option<bool>, since: nat)
    requires p in s.procs && s.procs[p] == Holding(Nudge(n), copy, own, since) && copy.id in s.workers
    ensures var t := Apply(s, Save(p)); var row := Saved(Nudged(copy, n));
      && t.workers == s.workers[copy.id := row] && t.runs == s.runs && t.procs == s.procs - {p}
      && row.id == copy.id && row.runID == copy.runID && row.status == copy.status && row.approval == copy.approval
  {
    PutStep(s, Save(p), Nudged(copy, n));
    SavedKeeps(Nudged(copy, n));
  }

  function PlainResult(): TurnResult {
    TurnResult("", "", COMPLETED, "", None, false, false, false)
  }

  lemma ContinuationIsRead(s: State, p: nat, id: string)
    requires id in s.workers && Continuable(s.workers[id]) && p !in s.procs
    ensures Apply(s, Read(p, id, Continue))
         == s.(procs := s.procs[p := Continuing(s.workers[id])], clock := s.clock + 1)
  {
    ReadStep(s, Read(p, id, Continue));
  }

  /** The turn of this row runs: a command's own, or one the run loop has taken up. */
  predicate Runs(proc: Proc, local: Worker) {
    proc == Continuing(local) || (proc.Engaged? && proc.job.Turn? && proc.local == local)
  }

  lemma TurnLands(s: State, p: nat, local: Worker, r: TurnResult)
    requires p in s.procs && local.id in s.workers && Runs(s.procs[p], local)
    ensures var t := Apply(s, Finish(p, r)); var row := Saved(Finished(local, r));
      && t.workers == s.workers[local.id := row] && t.runs == s.runs && t.procs == s.procs - {p}
      && row.id == local.id && row.runID == local.runID && row.status == StatusAfter(r) && row.approval == ApprovalOf(r)
  {
    PutStep(s, Finish(p, r), Finished(local, r));
    SavedKeeps(Finished(local, r));
  }

  lemma ContinuationLetsIn(t: State, id: string, p: nat, q: nat, prompt: string)
    requires Engages(t, p, id) && q !in t.procs && id != "" && id in t.workers && t.workers[id].id == id
    requires Continuable(t.workers[id]) && t.workers[id].runID in t.runs && !Blank(prompt)
    ensures var u := Apply(Apply(t, Read(q, id, Continue)), Finish(q, PlainResult()));
      Engages(u, p, id) && Admits(u, id, Dispatch(prompt, true)) == Done
  {
    ContinuationIsRead(t, q, id);
    var between := Apply(t, Read(q, id, Continue));
    TurnLands(between, q, t.workers[id], PlainResult());
    IdleIsAdmitted(Apply(between, Finish(q, PlainResult())), id, prompt);
  }

  /** A dispatch does not clear the ids of an earlier turn.  A run loop that comes by takes that turn
      up, and its end lets the next dispatch in beside the one in flight, although nobody has saved
      from a copy read before the mark. */
  lemma ContinuationLosesTheMark(s: State, id: string, p: nat, q: nat, prompt: string)
    requires Idle(s, id) && HasTurn(s.workers[id]) && !Blank(prompt) && p != q && p !in s.procs && q !in s.procs
    ensures var cmd := Dispatch(prompt, true);
      var t := After(s, [Read(p, id, cmd), Save(p), Read(q, id, Continue), Finish(q, PlainResult())]);
      Engages(t, p, id) && Admits(t, id, cmd) == Done
  {
    var cmd, w := Dispatch(prompt, true), s.workers[id];
    FourSteps(s, Read(p, id, cmd), Save(p), Read(q, id, Continue), Finish(q, PlainResult()));
    IdleIsRead(s, p, id, prompt);
    DispatchMarks(Apply(s, Read(p, id, cmd)), p, cmd, w, None, s.clock);
    SavedHasTurn(Started(w));
    SavedKeeps(Started(w));
    ContinuationLetsIn(Apply(Apply(s, Read(p, id, cmd)), Save(p)), id, p, q, prompt);
  }
}
