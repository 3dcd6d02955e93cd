/** What the interleaved writers of the worker table do to approvals and to the run's stop reason. */
module WorkerApprovals {
  import opened Text
  import opened Workers
  import opened WorkerRaces

  // ----- the state and the status -----

  predicate Unasked(w: Worker) {
    w.approval == None && w.approvalState == ""
  }

  ghost predicate MeaningfulProc(proc: Proc) {
    match proc
    case Holding(_, copy, _, _) => Meaningful(copy)
    case Engaged(job, local, _) => job.Turn? || Unasked(local)
    case _ => true
  }

  ghost predicate AllMeaningful(s: State) {
    && (forall id :: id in s.workers ==> Meaningful(s.workers[id]))
    && (forall p :: p in s.procs ==> MeaningfulProc(s.procs[p]))
  }

  /** The executor reports one of its named approval states, none of which has white space. */
  predicate Canonical(e: Event) {
    e.Finish? ==> Trimmed(e.result.approvalState)
  }

  lemma UnaskedRow(w: Worker)
    requires Unasked(w)
    ensures Meaningful(Saved(w))
  {
    assert TrimSpace("") == "";
  }

  lemma LaunchedRow(w: Worker)
    requires Meaningful(w) && w.status != APPROVAL_REQUIRED
    ensures Meaningful(Saved(Launched(w)))
  {
    assert TrimSpace("") == "";
  }

  lemma UnstartedRow(w: Worker)
    requires Saved(w) == w && Meaningful(w) && w.status != APPROVAL_REQUIRED
    ensures Meaningful(Saved(Unstarted(w)))
  {
    assert Saved(Unstarted(w)).approvalState == w.approvalState;
  }

  lemma DecidedRowIsMeaningful(w: Worker, d: Decision)
    ensures Meaningful(Saved(Decided(w, d)))
  {
    DecidedRow(w, d);
    assert Trimmed(DecisionState(d));
  }

  lemma HeldRowIsMeaningful(runs: RunRows, clock: nat, proc: Proc, e: Event, row: Worker)
    requires SaneProc(runs, clock, proc) && WrittenProc(proc) && MeaningfulProc(proc) && proc.Holding?
    requires RowPut(proc, e) == Some(row)
    ensures Meaningful(Saved(row))
  {
    if e.Fail? {
      UnstartedRow(proc.copy);
    } else {
      match proc.cmd {
        case Dispatch(_, _) => UnaskedRow(row);
        case Assign(_) => UnaskedRow(row);
        case Queue(_) => UnaskedRow(row);
        case Launch(_) => LaunchedRow(proc.copy);
        case Decide(d) => DecidedRowIsMeaningful(proc.copy, d);
        case Nudge(n) => NudgedRow(proc.copy, n);
        case _ =>
      }
    }
  }

  lemma RowIsMeaningful(runs: RunRows, clock: nat, proc: Proc, e: Event, row: Worker)
    requires SaneProc(runs, clock, proc) && WrittenProc(proc) && MeaningfulProc(proc) && Canonical(e)
    requires RowPut(proc, e) == Some(row)
    ensures Meaningful(Saved(row))
  {
    if proc.Holding? {
      HeldRowIsMeaningful(runs, clock, proc, e, row);
    } else if e.Finish? {
      FinishIsMeaningfulExactly(Subject(proc).value, e.result);
    } else {
      UnaskedRow(row);
    }
  }

  lemma NextIsMeaningful(proc: Proc, e: Event, clock: nat)
    requires Next(proc, e, clock).Some?
    ensures MeaningfulProc(Next(proc, e, clock).value)
  {
  }

  /** A row put, with one command changed or gone. */
  lemma MeaningIsKept(s: State, t: State, p: nat, row: Worker)
    requires AllMeaningful(s) && Meaningful(row) && t.workers == s.workers[row.id := row]
    requires forall q :: q in t.procs && q != p ==> q in s.procs && t.procs[q] == s.procs[q]
    requires p in t.procs ==> MeaningfulProc(t.procs[p])
    ensures AllMeaningful(t)
  {
    forall q | q in t.procs ensures MeaningfulProc(t.procs[q]) {}
  }

  lemma PutKeepsMeaning(s: State, e: Event, row: Worker)
    requires Base(s) && AllMeaningful(s) && Puts(s, e, row) && Canonical(e)
    ensures AllMeaningful(Apply(s, e))
  {
    PutStep(s, e, row);
    RowIsMeaningful(s.runs, s.clock, s.procs[e.p], e, row);
    SavedKeeps(row);
    if Next(s.procs[e.p], e, s.clock).Some? {
      NextIsMeaningful(s.procs[e.p], e, s.clock);
    }
    MeaningIsKept(s, Apply(s, e), e.p, Saved(row));
  }

  lemma ReadKeepsMeaning(s: State, e: Event)
    requires AllMeaningful(s) && Reads(s, e)
    ensures AllMeaningful(Apply(s, e))
  {
    ReadStep(s, e);
  }

  lemma CreateKeepsMeaning(s: State, e: Event)
    requires AllMeaningful(s) && Creates(s, e)
    ensures AllMeaningful(Apply(s, e))
  {
    CreateStep(s, e);
    MeaningIsKept(s, Apply(s, e), e.p, Created(e.id, e.runID));
  }

  lemma MinorKeepsMeaning(s: State, e: Event)
    requires AllMeaningful(s) && Minor(s, e)
    ensures AllMeaningful(Apply(s, e))
  {
    var t := Apply(s, e);
    MinorStep(s, e);
    forall q | q in t.procs ensures MeaningfulProc(t.procs[q]) {
      assert MeaningfulProc(s.procs[q]);
    }
  }

  lemma ApplyKeepsMeaning(s: State, e: Event)
    requires Base(s) && AllMeaningful(s) && Canonical(e)
    ensures AllMeaningful(Apply(s, e))
  {
    if row :| Puts(s, e, row) {
      PutKeepsMeaning(s, e, row);
    } else if Reads(s, e) {
      ReadKeepsMeaning(s, e);
    } else if Creates(s, e) {
      CreateKeepsMeaning(s, e);
    } else {
      MinorKeepsMeaning(s, e);
    }
  }

  lemma {:induction false} AfterKeepsMeaning(s: State, events: seq<Event>)
    requires Base(s) && AllMeaningful(s) && forall i :: 0 <= i < |events| ==> Canonical(events[i])
    ensures AllMeaningful(After(s, events))
    decreases |events|
  {
    if events != [] {
      ApplyKeepsSane(s, events[0]);
      ApplyKeepsWritten(s, events[0]);
      ApplyKeepsMeaning(s, events[0]);
      AfterKeepsMeaning(Apply(s, events[0]), events[1..]);
    }
  }

  /** Over every interleaving, store call by store call, a worker awaits approval exactly when its
      status says so, the state "required" included; and while its row says so, no dispatch, steer
      or removal of it gets past its read. */
  lemma AwaitingIsTheStatus(s: State, events: seq<Event>, id: string)
    requires Initially(s) && AllMeaningful(s) && forall i :: 0 <= i < |events| ==> Canonical(events[i])
    requires id in After(s, events).workers
    ensures var now := After(s, events); var w := now.workers[id];
      && (ApprovalRequired(w) <==> w.status == APPROVAL_REQUIRED)
      && (w.approvalState == REQUIRED ==> w.status == APPROVAL_REQUIRED)
      && (ApprovalRequired(w) ==> !Steerable(w) && ShutOut(now, id))
  {
    AfterKeepsBase(s, events);
    AfterKeepsMeaning(s, events);
    var now := After(s, events);
    assert KeyedRow(id, now.workers[id]);
    SavedRowIsTrimmed(now.workers[id]);
    if ApprovalRequired(now.workers[id]) {
      AwaitingIsShutOut(now, id);
    }
  }

  ghost predicate ShutOut(s: State, id: string) {
    && (forall cmd :: Takes(cmd) ==> Admits(s, id, cmd) != Done)
    && (forall note :: Admits(s, id, Nudge(Steer(note))) != Done)
    && Admits(s, id, Remove) != Done
  }

  lemma AwaitingIsShutOut(s: State, id: string)
    requires id in s.workers && ApprovalRequired(s.workers[id]) && s.workers[id].status == APPROVAL_REQUIRED
    ensures ShutOut(s, id)
  {
  }

  // ----- what happens to a command that is left alone -----

  /** No event is this command's own. */
  ghost predicate Spares(events: seq<Event>, p: nat) {
    forall i :: 0 <= i < |events| ==> ByCommand(events[i]) ==> events[i].p != p
  }

  lemma OthersKeepProc(s: State, e: Event, p: nat)
    requires p in s.procs && (ByCommand(e) ==> e.p != p)
    ensures p in Apply(s, e).procs && Apply(s, e).procs[p] == s.procs[p]
  {
    if row :| Puts(s, e, row) {
      PutStep(s, e, row);
    }
  }

  lemma {:induction false} ProcStays(s: State, events: seq<Event>, p: nat)
    requires p in s.procs && Spares(events, p)
    ensures p in After(s, events).procs && After(s, events).procs[p] == s.procs[p]
    decreases |events|
  {
    if events != [] {
      assert ByCommand(events[0]) ==> events[0].p != p;
      OthersKeepProc(s, events[0], p);
      assert Spares(events[1..], p);
      ProcStays(Apply(s, events[0]), events[1..], p);
    }
  }

  /** No run comes or goes. */
  lemma {:induction false} RunsStay(s: State, events: seq<Event>)
    ensures After(s, events).runs.Keys == s.runs.Keys
    ensures forall id :: id in s.runs ==> After(s, events).runs[id].id == s.runs[id].id
    decreases |events|
  {
    if events != [] {
      RunsStayAtOnce(s, events[0]);
      RunsStay(Apply(s, events[0]), events[1..]);
    }
  }

  lemma RunsStayAtOnce(s: State, e: Event)
    ensures Apply(s, e).runs.Keys == s.runs.Keys
    ensures forall id :: id in s.runs ==> Apply(s, e).runs[id].id == s.runs[id].id
  {
    if row :| Puts(s, e, row) {
      PutStep(s, e, row);
    } else if Reads(s, e) {
      ReadStep(s, e);
    } else if Creates(s, e) {
      CreateStep(s, e);
    } else {
      MinorStep(s, e);
    }
  }

  // ----- what a dispatch leaves -----

  /** Whatever happens between its read, its mark and its last save, a dispatch leaves the row as
      it was read with the result put in: what was saved in between, such as a control record, is
      lost.  It changes no other worker and leaves every run's stop reason alone, even when the
      worker now awaits approval. */
  lemma DispatchIsAsIfAtomic(s: State, p: nat, copy: Worker, own: Option<bool>, since: nat, cmd: Command,
                             before: seq<Event>, during: seq<Event>, r: TurnResult)
    requires p in s.procs && s.procs[p] == Holding(cmd, copy, own, since) && cmd.Dispatch?
    requires Spares(before, p) && Spares(during, p) && copy.id in After(s, before).workers
    requires copy.id in After(Apply(After(s, before), Save(p)), during).workers
    ensures var landing := After(Apply(After(s, before), Save(p)), during); var t := Apply(landing, Finish(p, r));
      t.workers == landing.workers[copy.id := Saved(Finished(Started(copy), r))] && t.runs == landing.runs
  {
    ProcStays(s, before, p);
    DispatchMarks(After(s, before), p, cmd, copy, own, since);
    ProcStays(Apply(After(s, before), Save(p)), during, p);
    TurnLands(After(Apply(After(s, before), Save(p)), during), p, Started(copy), r);
  }

  // ----- what a decision leaves -----

  lemma DecisionSaves(s: State, p: nat, d: Decision, copy: Worker, own: bool, since: nat)
    requires p in s.procs && s.procs[p] == Holding(Decide(d), copy, Some(own), since) && copy.id in s.workers
    ensures var t := Apply(s, Save(p)); var row := Saved(Decided(copy, d));
      && t.workers == s.workers[copy.id := row] && t.runs == s.runs
      && t.procs == s.procs[p := Refreshing(copy.runID, own)]
      && row.id == copy.id && row.runID == copy.runID && row.status == EXECUTOR_ACTIVE
      && row.approvalState == DecisionState(d) && !ApprovalRequired(row)
  {
    PutStep(s, Save(p), Decided(copy, d));
    SavedKeeps(Decided(copy, d));
    DecidedRow(copy, d);
  }

  /** The save of an approve or deny ends the worker's own wait and changes no other worker. */
  lemma DecisionEndsTheWait(s: State, p: nat, d: Decision, copy: Worker, own: bool, since: nat)
    requires p in s.procs && s.procs[p] == Holding(Decide(d), copy, Some(own), since) && copy.id in s.workers
    ensures var t := Apply(s, Save(p));
      && t.workers.Keys == s.workers.Keys && t.runs == s.runs
      && t.workers[copy.id].status == EXECUTOR_ACTIVE && !ApprovalRequired(t.workers[copy.id])
      && t.workers[copy.id].approvalState == (if d.Approve? then "granted" else "denied")
      && (forall other :: other in s.workers && other != copy.id ==> t.workers[other] == s.workers[other])
  {
    DecisionSaves(s, p, d, copy, own, since);
  }

  /** The run's stop reason says whether the run or any of its workers awaits approval. */
  ghost predicate Settled(s: State, runID: string)
    requires runID in s.runs
  {
    s.runs[runID].stopReason == StopReasonFor(RunAwaits(s.workers, s.runs[runID]))
  }

  lemma LoadIsOneReading(s: State, p: nat, cmd: Command, copy: Worker, own: Option<bool>, since: nat)
    requires p in s.procs && s.procs[p] == Holding(cmd, copy, own, since) && copy.runID in s.runs
    ensures Apply(s, Load(p))
         == s.(procs := s.procs[p := Holding(cmd, copy, Some(OwnAwaits(s.runs[copy.runID])), since)],
               clock := s.clock + 1)
  {
  }

  lemma ListIsOneReading(s: State, p: nat, runID: string, own: bool)
    requires p in s.procs && s.procs[p] == Refreshing(runID, own)
    ensures Apply(s, List(p))
         == s.(procs := s.procs[p := Listed(runID, WorkersAwait(s.workers, runID) || own)], clock := s.clock + 1)
  {
  }

  lemma WriteIsOneRun(s: State, p: nat, runID: string, awaits: bool)
    requires p in s.procs && s.procs[p] == Listed(runID, awaits) && runID in s.runs
    ensures var t := Apply(s, Write(p));
      && t.workers == s.workers && t.procs == s.procs - {p}
      && t.runs == s.runs[runID := s.runs[runID].(stopReason := StopReasonFor(awaits))]
  {
  }

  /** A decision that has read its worker, up to the write of the stop reason: it loads the run,
      saves the worker, lists the run's workers and writes, with anything of others in between. */
  datatype Course = Course(p: nat, copy: Worker, untilSave: seq<Event>, untilList: seq<Event>, untilWrite: seq<Event>)

  ghost function AtSave(s: State, c: Course): State {
    After(Apply(s, Load(c.p)), c.untilSave)
  }

  ghost function AtList(s: State, c: Course): State {
    After(Apply(AtSave(s, c), Save(c.p)), c.untilList)
  }

  ghost function AtWrite(s: State, c: Course): State {
    After(Apply(AtList(s, c), List(c.p)), c.untilWrite)
  }

  ghost predicate Completes(s: State, c: Course) {
    && c.p in s.procs && s.procs[c.p].Holding? && s.procs[c.p].cmd.Decide? && s.procs[c.p].copy == c.copy
    && c.copy.runID in s.runs && Spares(c.untilSave, c.p) && Spares(c.untilList, c.p) && Spares(c.untilWrite, c.p)
    && c.copy.id in AtSave(s, c).workers
  }

  /** What the command goes by: the workers as listed, and the run as loaded before the save. */
  ghost predicate Seen(s: State, c: Course)
    requires c.copy.runID in s.runs
  {
    WorkersAwait(AtList(s, c).workers, c.copy.runID) || OwnAwaits(s.runs[c.copy.runID])
  }

  lemma CourseRuns(s: State, c: Course)
    requires Completes(s, c)
    ensures var before := AtWrite(s, c);
      && before.runs.Keys == s.runs.Keys && c.p in before.procs
      && before.procs[c.p] == Listed(c.copy.runID, Seen(s, c))
  {
    var proc := s.procs[c.p];
    LoadIsOneReading(s, c.p, proc.cmd, c.copy, proc.own, proc.since);
    var own := OwnAwaits(s.runs[c.copy.runID]);
    ProcStays(Apply(s, Load(c.p)), c.untilSave, c.p);
    DecisionSaves(AtSave(s, c), c.p, proc.cmd.d, c.copy, own, proc.since);
    ProcStays(Apply(AtSave(s, c), Save(c.p)), c.untilList, c.p);
    ListIsOneReading(AtList(s, c), c.p, c.copy.runID, own);
    ProcStays(Apply(AtList(s, c), List(c.p)), c.untilWrite, c.p);
    CourseKeepsRuns(s, c);
  }

  lemma CourseKeepsRuns(s: State, c: Course)
    ensures AtWrite(s, c).runs.Keys == s.runs.Keys
    ensures forall id :: id in s.runs ==> AtWrite(s, c).runs[id].id == s.runs[id].id
  {
    RunsStayAtOnce(s, Load(c.p));
    RunsStay(Apply(s, Load(c.p)), c.untilSave);
    RunsStayAtOnce(AtSave(s, c), Save(c.p));
    RunsStay(Apply(AtSave(s, c), Save(c.p)), c.untilList);
    RunsStayAtOnce(AtList(s, c), List(c.p));
    RunsStay(Apply(AtList(s, c), List(c.p)), c.untilWrite);
  }

  /** A decision leaves the run's stop reason right if and only if what it went by, the workers as
      listed and the run as loaded before the decision was sent, is still so at the write; no other
      run changes. */
  lemma DecisionSettlesExactly(s: State, c: Course)
    requires Completes(s, c)
    ensures var before := AtWrite(s, c); var t := Apply(before, Write(c.p)); var runID := c.copy.runID;
      && runID in before.runs && runID in t.runs
      && (Settled(t, runID) <==> (Seen(s, c) <==> RunAwaits(before.workers, before.runs[runID])))
      && (forall other :: other in before.runs && other != runID ==> t.runs[other] == before.runs[other])
  {
    CourseRuns(s, c);
    WriteIsOneRun(AtWrite(s, c), c.p, c.copy.runID, Seen(s, c));
    assert STOP_FOR_APPROVAL != "";
  }

  // ----- at any later time -----

  /** Nobody writes the stop reason of this run. */
  ghost predicate LeavesReason(s: State, events: seq<Event>, runID: string)
    decreases |events|
  {
    events != [] ==> !WritesReason(s, events[0], runID) && LeavesReason(Apply(s, events[0]), events[1..], runID)
  }

  predicate WritesReason(s: State, e: Event, runID: string) {
    || (e.Write? && e.p in s.procs && s.procs[e.p].Listed? && s.procs[e.p].runID == runID)
    || (e.SaveExecutorState? && e.run == runID) || (e.SaveReason? && e.run == runID)
  }

  lemma OneEventLeavesRun(s: State, e: Event, runID: string)
    requires runID in s.runs && !WritesReason(s, e, runID)
    ensures runID in Apply(s, e).runs && Apply(s, e).runs[runID] == s.runs[runID]
  {
    if row :| Puts(s, e, row) {
      PutStep(s, e, row);
    }
  }

  lemma {:induction false} RunStays(s: State, events: seq<Event>, runID: string)
    requires runID in s.runs && LeavesReason(s, events, runID)
    ensures runID in After(s, events).runs && After(s, events).runs[runID] == s.runs[runID]
    decreases |events|
  {
    if events != [] {
      OneEventLeavesRun(s, events[0], runID);
      RunStays(Apply(s, events[0]), events[1..], runID);
    }
  }

  /** And at any later time, until somebody writes that run: the stop reason is right if and only if
      the run awaits now exactly when the decision thought it did. */
  lemma ReasonIsTheLastListing(s: State, c: Course, later: seq<Event>)
    requires Completes(s, c) && LeavesReason(Apply(AtWrite(s, c), Write(c.p)), later, c.copy.runID)
    ensures var now := After(Apply(AtWrite(s, c), Write(c.p)), later); var runID := c.copy.runID;
      runID in now.runs && (Settled(now, runID) <==> (Seen(s, c) <==> RunAwaits(now.workers, now.runs[runID])))
  {
    CourseRuns(s, c);
    WriteIsOneRun(AtWrite(s, c), c.p, c.copy.runID, Seen(s, c));
    RunStays(Apply(AtWrite(s, c), Write(c.p)), later, c.copy.runID);
    assert STOP_FOR_APPROVAL != "";
  }

  // ----- when nothing interferes -----

  /** Events that put or delete no worker row. */
  ghost predicate Quiet(events: seq<Event>) {
    forall i :: 0 <= i < |events| ==>
      !events[i].Save? && !events[i].Fail? && !events[i].Finish? && !events[i].Create?
  }

  lemma {:induction false} QuietKeepsWorkers(s: State, events: seq<Event>)
    requires Quiet(events)
    ensures After(s, events).workers == s.workers
    decreases |events|
  {
    if events != [] {
      assert Quiet(events[1..]);
      QuietKeepsWorkers(Apply(s, events[0]), events[1..]);
    }
  }

  /** Nobody saves the executor state of this run. */
  ghost predicate KeepsApproval(events: seq<Event>, runID: string) {
    forall i :: 0 <= i < |events| ==> !(events[i].SaveExecutorState? && events[i].run == runID)
  }

  lemma OneEventKeepsApproval(s: State, e: Event, runID: string)
    requires runID in s.runs && !(e.SaveExecutorState? && e.run == runID)
    ensures runID in Apply(s, e).runs && Apply(s, e).runs[runID].approvalState == s.runs[runID].approvalState
  {
    if row :| Puts(s, e, row) {
      PutStep(s, e, row);
    }
  }

  lemma {:induction false} ApprovalStays(s: State, events: seq<Event>, runID: string)
    requires runID in s.runs && KeepsApproval(events, runID)
    ensures runID in After(s, events).runs && After(s, events).runs[runID].approvalState == s.runs[runID].approvalState
    decreases |events|
  {
    if events != [] {
      OneEventKeepsApproval(s, events[0], runID);
      assert KeepsApproval(events[1..], runID);
      ApprovalStays(Apply(s, events[0]), events[1..], runID);
    }
  }

  lemma CourseKeepsApproval(s: State, c: Course, runID: string)
    requires runID in s.runs
    requires KeepsApproval(c.untilSave, runID) && KeepsApproval(c.untilList, runID)
    requires KeepsApproval(c.untilWrite, runID)
    ensures runID in AtWrite(s, c).runs && AtWrite(s, c).runs[runID].approvalState == s.runs[runID].approvalState
  {
    OneEventKeepsApproval(s, Load(c.p), runID);
    ApprovalStays(Apply(s, Load(c.p)), c.untilSave, runID);
    OneEventKeepsApproval(AtSave(s, c), Save(c.p), runID);
    ApprovalStays(Apply(AtSave(s, c), Save(c.p)), c.untilList, runID);
    OneEventKeepsApproval(AtList(s, c), List(c.p), runID);
    ApprovalStays(Apply(AtList(s, c), List(c.p)), c.untilWrite, runID);
  }

  /** In particular it is right when nobody saves the run's executor state from the load on, and
      nobody writes or deletes a worker between the listing and the write. */
  lemma QuietDecisionSettles(s: State, c: Course)
    requires Completes(s, c) && s.runs[c.copy.runID].id == c.copy.runID && Quiet(c.untilWrite)
    requires var runID := c.copy.runID;
      KeepsApproval(c.untilSave, runID) && KeepsApproval(c.untilList, runID) && KeepsApproval(c.untilWrite, runID)
    ensures var t := Apply(AtWrite(s, c), Write(c.p)); c.copy.runID in t.runs && Settled(t, c.copy.runID)
  {
    DecisionSettlesExactly(s, c);
    CourseKeepsRuns(s, c);
    CourseKeepsApproval(s, c, c.copy.runID);
    QuietKeepsWorkers(Apply(AtList(s, c), List(c.p)), c.untilWrite);
    CourseListsNoRow(s, c);
  }

  lemma CourseListsNoRow(s: State, c: Course)
    ensures Apply(AtList(s, c), List(c.p)).workers == AtList(s, c).workers
  {
  }

  // ----- two ways to stop a run that nobody awaits -----

  lemma DecisionIsRead(s: State, p: nat, id: string, d: Decision)
    requires DecideOutcome(s.workers, s.runs, id) == Done && p !in s.procs
    ensures id in s.workers && s.workers[id].runID in s.runs && Decidable(s.workers[id])
    ensures Apply(s, Read(p, id, Decide(d)))
         == s.(procs := s.procs[p := Holding(Decide(d), s.workers[id], None, s.clock)], clock := s.clock + 1)
  {
    ReadStep(s, Read(p, id, Decide(d)));
  }

  /** These are the workers of the run that await approval, each with a record, and no others. */
  ghost predicate WaitingAre(s: State, ids: set<string>, runID: string) {
    && runID in s.runs && s.runs[runID].id == runID
    && (forall id :: id in ids ==>
          DecideOutcome(s.workers, s.runs, id) == Done && s.workers[id].id == id && s.workers[id].runID == runID)
    && (forall id :: id in s.workers && id !in ids && s.workers[id].runID == runID ==> !ApprovalRequired(s.workers[id]))
  }

  lemma NobodyAwaits(workers: WorkerRows, run: Run, runID: string)
    requires run.id == runID && !OwnAwaits(run)
    requires forall id :: id in workers && workers[id].runID == runID ==> !ApprovalRequired(workers[id])
    ensures !RunAwaits(workers, run)
  {
  }

  lemma OneEvent(s: State, e: Event)
    ensures After(s, [e]) == Apply(s, e)
  {
    AfterFirst(s, e, []);
    assert [e] + [] == [e];
  }

  lemma GrantStep(s: State, runID: string)
    requires runID in s.runs
    ensures var t := Apply(s, SaveExecutorState(runID, Some("granted")));
      && t.workers == s.workers && t.procs == s.procs
      && t.runs == s.runs[runID := s.runs[runID].(approvalState := Some("granted"), stopReason := "")]
  {
  }

  function Grant(p: nat, w: Worker): Course {
    Course(p, w, [SaveExecutorState(w.runID, Some("granted"))], [], [])
  }

  lemma GrantCourse(s: State, p: nat, d: Decision, w: Worker, since: nat)
    requires p in s.procs && s.procs[p] == Holding(Decide(d), w, None, since)
    requires WaitingAre(s, {w.id}, w.runID) && s.workers[w.id] == w
    ensures var c := Grant(p, w);
      && Completes(s, c)
      && AtWrite(s, c).workers == s.workers[w.id := Saved(Decided(w, d))]
      && w.runID in AtWrite(s, c).runs && AtWrite(s, c).runs[w.runID].id == w.runID
      && !OwnAwaits(AtWrite(s, c).runs[w.runID])
  {
    var c, grant := Grant(p, w), SaveExecutorState(w.runID, Some("granted"));
    LoadIsOneReading(s, p, Decide(d), w, None, since);
    var loaded := Apply(s, Load(p));
    OneEvent(loaded, grant);
    GrantStep(loaded, w.runID);
    var own := OwnAwaits(s.runs[w.runID]);
    DecisionSaves(AtSave(s, c), p, d, w, own, since);
    ListIsOneReading(AtList(s, c), p, w.runID, own);
    assert Trimmed("granted");
  }

  /** A run and its one waiting worker both await approval, and both are approved: the run by the
      executor's own command, between the load and the save of the worker's decision.  The run is
      stopped for an approval nobody awaits, although nothing happens between listing and write. */
  lemma StaleRunStops(s: State, p: nat, d: Decision, w: Worker, since: nat)
    requires p in s.procs && s.procs[p] == Holding(Decide(d), w, None, since)
    requires WaitingAre(s, {w.id}, w.runID) && s.workers[w.id] == w && OwnAwaits(s.runs[w.runID])
    ensures var c := Grant(p, w); var t := Apply(AtWrite(s, c), Write(p));
      && Completes(s, c) && w.runID in t.runs
      && t.runs[w.runID].stopReason == STOP_FOR_APPROVAL && !RunAwaits(t.workers, t.runs[w.runID])
  {
    var c := Grant(p, w);
    GrantCourse(s, p, d, w, since);
    CourseRuns(s, c);
    var before := AtWrite(s, c);
    WriteIsOneRun(before, p, w.runID, true);
    DecidedRow(w, d);
    NobodyAwaits(before.workers, Apply(before, Write(p)).runs[w.runID], w.runID);
  }

  /** Every waiting worker of a run that waits itself leads there. */
  lemma StaleRunIsReached(s: State, id: string, p: nat, d: Decision)
    requires id in s.workers && WaitingAre(s, {id}, s.workers[id].runID) && OwnAwaits(s.runs[s.workers[id].runID])
    requires p !in s.procs
    ensures var read := Apply(s, Read(p, id, Decide(d))); var w := s.workers[id];
      var t := Apply(AtWrite(read, Grant(p, w)), Write(p));
      && Completes(read, Grant(p, w)) && w.runID in t.runs
      && t.runs[w.runID].stopReason == STOP_FOR_APPROVAL && !RunAwaits(t.workers, t.runs[w.runID])
  {
    DecisionIsRead(s, p, id, d);
    StaleRunStops(Apply(s, Read(p, id, Decide(d))), p, d, s.workers[id], s.clock);
  }

  /** Two decisions of one run, the second between the listing and the write of the first. */
  function Overtaken(p: nat, w: Worker, q: nat): Course {
    Course(p, w, [], [], [Save(q), List(q), Write(q)])
  }

  lemma ThreeEvents(s: State, a: Event, b: Event, c: Event)
    ensures After(s, [a, b, c]) == Apply(Apply(Apply(s, a), b), c)
  {
    AfterFirst(s, a, [b, c]);
    TwoSteps(Apply(s, a), b, c);
    assert [a] + [b, c] == [a, b, c];
  }

  /** The second decision, from its save on. */
  lemma SecondDecision(s: State, q: nat, d: Decision, w: Worker, own: bool, since: nat)
    requires q in s.procs && s.procs[q] == Holding(Decide(d), w, Some(own), since) && w.id in s.workers
    requires w.runID in s.runs
    ensures var t := After(s, [Save(q), List(q), Write(q)]);
      && t.workers == s.workers[w.id := Saved(Decided(w, d))] && t.runs.Keys == s.runs.Keys
      && t.runs[w.runID].(stopReason := "") == s.runs[w.runID].(stopReason := "")
  {
    ThreeEvents(s, Save(q), List(q), Write(q));
    DecisionSaves(s, q, d, w, own, since);
    var t1 := Apply(s, Save(q));
    ListIsOneReading(t1, q, w.runID, own);
    var t2 := Apply(t1, List(q));
    WriteIsOneRun(t2, q, w.runID, WorkersAwait(t1.workers, w.runID) || own);
  }

  /** Both decisions hold their workers, and the second has loaded the run. */
  ghost predicate BothHeld(s: State, p: nat, q: nat, d: Decision, a: Worker, b: Worker) {
    && p != q && a.id != b.id && a.runID == b.runID && WaitingAre(s, {a.id, b.id}, a.runID)
    && s.workers[a.id] == a && s.workers[b.id] == b && !OwnAwaits(s.runs[a.runID])
    && p in s.procs && s.procs[p].Holding? && s.procs[p].cmd == Decide(d) && s.procs[p].copy == a
    && q in s.procs && s.procs[q].Holding? && s.procs[q].cmd == Decide(d) && s.procs[q].copy == b
    && s.procs[q].own == Some(false)
  }

  /** Any two waiting workers of a run lead there. */
  lemma BothAreHeld(s: State, p: nat, q: nat, d: Decision, a: string, b: string)
    requires a in s.workers && b in s.workers && a != b && s.workers[a].runID == s.workers[b].runID
    requires WaitingAre(s, {a, b}, s.workers[a].runID) && !OwnAwaits(s.runs[s.workers[a].runID])
    requires p != q && p !in s.procs && q !in s.procs
    ensures BothHeld(
      After(s, [Read(p, a, Decide(d)), Read(q, b, Decide(d)), Load(q)]), p, q, d, s.workers[a], s.workers[b])
  {
    ThreeEvents(s, Read(p, a, Decide(d)), Read(q, b, Decide(d)), Load(q));
    DecisionIsRead(s, p, a, d);
    var s1 := Apply(s, Read(p, a, Decide(d)));
    DecisionIsRead(s1, q, b, d);
    LoadIsOneReading(Apply(s1, Read(q, b, Decide(d))), q, Decide(d), s.workers[b], None, s1.clock);
  }

  lemma OvertakenUpToList(s: State, p: nat, q: nat, d: Decision, a: Worker, b: Worker)
    requires BothHeld(s, p, q, d, a, b)
    ensures var c := Overtaken(p, a, q); var listed := Apply(AtList(s, c), List(p));
      && AtSave(s, c).workers == s.workers && WorkersAwait(AtList(s, c).workers, a.runID)
      && listed.workers == s.workers[a.id := Saved(Decided(a, d))] && listed.runs == s.runs
      && q in listed.procs && listed.procs[q] == s.procs[q]
  {
    var c, proc := Overtaken(p, a, q), s.procs[p];
    LoadIsOneReading(s, p, proc.cmd, a, proc.own, proc.since);
    DecisionSaves(AtSave(s, c), p, d, a, false, proc.since);
    ListIsOneReading(AtList(s, c), p, a.runID, false);
    assert b.id in AtList(s, c).workers && AtList(s, c).workers[b.id] == b;
  }

  lemma OvertakenUpToWrite(s: State, p: nat, q: nat, d: Decision, a: Worker, b: Worker)
    requires BothHeld(s, p, q, d, a, b)
    ensures var c := Overtaken(p, a, q); var before := AtWrite(s, c);
      && Completes(s, c) && Seen(s, c) && a.runID in before.runs && before.runs[a.runID].id == a.runID
      && !OwnAwaits(before.runs[a.runID])
      && before.workers == s.workers[a.id := Saved(Decided(a, d))][b.id := Saved(Decided(b, d))]
  {
    OvertakenUpToList(s, p, q, d, a, b);
    var listed := Apply(AtList(s, Overtaken(p, a, q)), List(p));
    SecondDecision(listed, q, d, b, false, s.procs[q].since);
  }

  /** Two decisions of one run can leave it stopped for an approval nobody awaits: the first lists
      before the second saves, and writes after it. */
  lemma DecisionsRace(s: State, p: nat, q: nat, d: Decision, a: Worker, b: Worker)
    requires BothHeld(s, p, q, d, a, b)
    ensures var c := Overtaken(p, a, q); var t := Apply(AtWrite(s, c), Write(p));
      && Completes(s, c) && a.runID in t.runs
      && t.runs[a.runID].stopReason == STOP_FOR_APPROVAL && !RunAwaits(t.workers, t.runs[a.runID])
  {
    var c := Overtaken(p, a, q);
    OvertakenUpToWrite(s, p, q, d, a, b);
    CourseRuns(s, c);
    var before := AtWrite(s, c);
    WriteIsOneRun(before, p, a.runID, true);
    DecidedRow(a, d);
    DecidedRow(b, d);
    NobodyAwaits(before.workers, before.runs[a.runID].(stopReason := STOP_FOR_APPROVAL), a.runID);
  }
}
