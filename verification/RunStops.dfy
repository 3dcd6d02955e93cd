/** What the traces of the two loops say, read off what the cycles returned: the run that is
    handed from cycle to cycle, why the invocation goes on or stops, what is written, and which
    call a failure comes from.  Nothing here goes by the functions the traces are built from. */
module RunStops {
  import opened Text
  import opened RunLoops

  // ----- one cycle -----

  /** The run handed on is the one the cycle returned, or the one it was given if that has no id. */
  predicate Hands(ret: CycleReturn, before: Run, after: Run) {
    && (ret.result.run.id != "" ==> after == ret.result.run)
    && (ret.result.run.id == "" ==> after == before)
  }

  predicate Waits(run: Run) {
    || run.latestStopReason == ExecutorApprovalRequired
    || (match run.executorApproval
        case Some(state) => TrimSpace(state) == "required"
        case None => false)
  }

  /** `reason` is why the invocation stops after the cycle, `NoReason` that it goes on; `otherwise`
      is what the loop says of a cycle that gives no reason of its own. */
  predicate Explains(reason: StopReason, ret: CycleReturn, after: Run, asksHuman: bool, otherwise: StopReason) {
    && (Waits(after) ==> reason == ExecutorApprovalRequired)
    && (!Waits(after) && ret.failed ==>
          && (after.runtimeIssueReason in {PlannerValidationFailed, MissingRequiredConfig, ExecutorFailed} ==>
                reason == after.runtimeIssueReason)
          && (after.runtimeIssueReason !in {PlannerValidationFailed, MissingRequiredConfig, ExecutorFailed} ==>
                reason == TransportOrProcessError))
    && (!Waits(after) && !ret.failed ==>
          && (after.status == Completed ==> reason == PlannerComplete)
          && (after.status != Completed && asksHuman ==> reason == PlannerAskHuman)
          && (after.status != Completed && !asksHuman ==> reason == otherwise))
  }

  /** The planner turns of a cycle in the order they were taken. */
  function TurnsOf(result: CycleResult): (r: seq<PlannerTurn>)
    ensures r != [] && r[0] == result.first
  {
    [result.first]
    + (if result.reconsideration.Some? then [result.reconsideration.value] else [])
    + (if result.second.Some? then [result.second.value] else [])
  }

  predicate FirstAsks(result: CycleResult) {
    TurnsOf(result)[0].outcome == AskHuman
  }

  predicate LastAsks(result: CycleResult) {
    TurnsOf(result)[|TurnsOf(result)| - 1].outcome == AskHuman
  }

  /** The last planner turn, which is not the first, hands work over that nobody has dispatched. */
  predicate HandsWorkOver(result: CycleResult) {
    var turns := TurnsOf(result);
    && |turns| > 1
    && turns[|turns| - 1].outcome == Execute
    && turns[|turns| - 1].hasExecute
    && !result.executorDispatched
  }

  /** What the bounded loop says of its `n`-th cycle if that gives no reason of its own. */
  function AtTheLimit(result: CycleResult, n: int, maxCycles: int): StopReason {
    if n < Limit(maxCycles) || (n == Limit(maxCycles) && HandsWorkOver(result)) then NoReason else MaxCyclesReached
  }

  /** What the foreground loop says of such a cycle. */
  function AtTheBoundary(sighting: FlagSighting): StopReason {
    if sighting == Present then OperatorStopRequested else NoReason
  }

  /** The calls the bounded loop makes after a cycle, in order. */
  function ContinueCalls(failed: bool, before: StopReason, reason: StopReason): seq<IoPoint> {
    [ConfigAfter, Report]
    + (if failed then [] else [CycleJournal])
    + (if reason in {NoReason, before} then [] else [SaveReason])
    + (if reason == NoReason then [] else [StopJournal])
  }

  /** The calls the foreground loop makes once it has looked for the stop flag, in order. */
  function ForegroundCalls(failed: bool, before: StopReason, reason: StopReason): seq<IoPoint> {
    [ConfigAfter]
    + (if reason in {NoReason, before} then [] else [SaveReason])
    + [Report]
    + (if failed then [] else [CycleJournal])
    + (if reason == NoReason then [] else [StopJournal])
  }

  /** How many of the calls come back before one fails. */
  function Succeeding(env: Environment, n: int, calls: seq<IoPoint>): (k: nat)
    ensures k <= |calls|
    ensures forall i :: 0 <= i < k ==> !env.ioFails(n, calls[i])
    ensures k < |calls| ==> env.ioFails(n, calls[k])
  {
    if calls == [] || env.ioFails(n, calls[0]) then 0 else 1 + Succeeding(env, n, calls[1..])
  }

  /** What the calls after a cycle come to: the reason is written if its call comes back, and the
      first call that fails is what the invocation returns. */
  predicate Closes(
    env: Environment, n: int, calls: seq<IoPoint>, failed: bool, after: Run, reason: StopReason,
    saved: seq<(string, StopReason)>, exit: Exit)
  {
    var k := Succeeding(env, n, calls);
    && saved == (if SaveReason in calls[..k] then [(after.id, reason)] else [])
    && (k < |calls| ==> exit == IoFailed(calls[k]))
    && (k == |calls| ==> reason != NoReason && exit == Stopped(reason, failed, after.(latestStopReason := reason)))
  }

  /** Each run is followed by the next one, cycle by cycle from cycle `n` on. */
  ghost predicate Linked(goesOn: (int, Run, Run) -> bool, n: int, passed: seq<Run>) {
    forall k :: 0 < k < |passed| ==> goesOn(n + k - 1, passed[k - 1], passed[k])
  }

  lemma LinkedCons(goesOn: (int, Run, Run) -> bool, n: int, run: Run, passed: seq<Run>)
    requires Linked(goesOn, n + 1, passed) && (passed != [] ==> goesOn(n, run, passed[0]))
    ensures Linked(goesOn, n, [run] + passed)
  {
    var all := [run] + passed;
    forall k | 0 < k < |all| ensures goesOn(n + k - 1, all[k - 1], all[k]) {
      if k > 1 {
        assert goesOn(n + 1 + (k - 1) - 1, passed[k - 2], passed[k - 1]);
        assert n + 1 + (k - 1) - 1 == n + k - 1;
      }
    }
  }

  // ----- the bounded loop -----

  /** The `n`-th cycle of the bounded loop is given `before` and leaves `after`, and `reason` is why
      the loop stops. */
  predicate ContinueStep(env: Environment, n: int, maxCycles: int, before: Run, after: Run, reason: StopReason) {
    var ret := env.cycle(n, before);
    && !env.ioFails(n, ConfigBefore)
    && Hands(ret, before, after)
    && Explains(reason, ret, after, FirstAsks(ret.result), AtTheLimit(ret.result, n, maxCycles))
  }

  ghost predicate ContinueGoesOn(env: Environment, n: int, maxCycles: int, before: Run, after: Run) {
    && ContinueStep(env, n, maxCycles, before, after, NoReason)
    && forall p <- ContinueCalls(env.cycle(n, before).failed, NoReason, NoReason) :: !env.ioFails(n, p)
  }

  ghost predicate ContinueEnds(env: Environment, n: int, maxCycles: int, before: Run, saved: seq<(string, StopReason)>,
                               exit: Exit)
  {
    exists after, reason ::
      && ContinueStep(env, n, maxCycles, before, after, reason)
      && var failed := env.cycle(n, before).failed;
         Closes(env, n, ContinueCalls(failed, after.latestStopReason, reason), failed, after, reason, saved, exit)
  }

  /** Which run a cycle hands on and why, whatever the calls around it do. */
  lemma ContinueStepReads(env: Environment, run: Run, n: int, maxCycles: int, graceUsed: bool)
    returns (after: Run, reason: StopReason)
    requires !env.ioFails(n, ConfigBefore)
    requires 1 <= n <= Limit(maxCycles) + 1
    requires graceUsed <==> n == Limit(maxCycles) + 1
    ensures ContinueStep(env, n, maxCycles, run, after, reason)
    ensures after == MergeCycleRun(run, env.cycle(n, run).result)
    ensures var ret := env.cycle(n, run);
      reason == DetermineContinueStopReason(
                  ret.result, after, ret.failed, n, maxCycles, AllowsGrace(ret, n, maxCycles, graceUsed))
  {
    var ret := env.cycle(n, run);
    after := if ret.result.run.id != "" then ret.result.run else run;
    reason := DetermineContinueStopReason(
      ret.result, after, ret.failed, n, maxCycles, AllowsGrace(ret, n, maxCycles, graceUsed));
  }

  /** The call at place `j` is the first to fail, or all come back. */
  lemma SucceedingIs(env: Environment, n: int, calls: seq<IoPoint>, j: nat)
    requires j <= |calls|
    requires forall i :: 0 <= i < j ==> !env.ioFails(n, calls[i])
    requires j < |calls| ==> env.ioFails(n, calls[j])
    ensures Succeeding(env, n, calls) == j
  {
    var k := Succeeding(env, n, calls);
    if k < j {
      assert false;
    } else if j < k {
      assert false;
    }
  }

  lemma ContinueCloses(
    env: Environment, n: int, failed: bool, after: Run, reason: StopReason,
    saved: seq<(string, StopReason)>, exit: Exit)
    requires
      var writes := reason !in {NoReason, after.latestStopReason};
      if env.ioFails(n, ConfigAfter) then saved == [] && exit == IoFailed(ConfigAfter)
      else if env.ioFails(n, Report) then saved == [] && exit == IoFailed(Report)
      else if !failed && env.ioFails(n, CycleJournal) then saved == [] && exit == IoFailed(CycleJournal)
      else if writes && env.ioFails(n, SaveReason) then saved == [] && exit == IoFailed(SaveReason)
      else
        && reason != NoReason
        && saved == (if writes then [(after.id, reason)] else [])
        && exit == if env.ioFails(n, StopJournal) then IoFailed(StopJournal)
                   else Stopped(reason, failed, after.(latestStopReason := reason))
    ensures Closes(env, n, ContinueCalls(failed, after.latestStopReason, reason), failed, after, reason, saved, exit)
  {
    var calls := ContinueCalls(failed, after.latestStopReason, reason);
    var writes := reason !in {NoReason, after.latestStopReason};
    var toSave := if failed then 2 else 3;
    var last := if writes then toSave + 1 else toSave;
    assert calls[0] == ConfigAfter && calls[1] == Report;
    assert |calls| == if reason == NoReason then last else last + 1;
    assert reason != NoReason ==> calls[last] == StopJournal;
    assert !failed ==> calls[2] == CycleJournal;
    assert writes ==> calls[toSave] == SaveReason;
    var j := if env.ioFails(n, ConfigAfter) then 0
             else if env.ioFails(n, Report) then 1
             else if !failed && env.ioFails(n, CycleJournal) then 2
             else if writes && env.ioFails(n, SaveReason) then toSave
             else if env.ioFails(n, StopJournal) then last
             else last + 1;
    SucceedingIs(env, n, calls, j);
    assert SaveReason in calls[..j] <==> writes && toSave < j by {
      if writes && toSave < j {
        assert calls[..j][toSave] == SaveReason;
      }
    }
  }

  lemma ContinueTurnReads(env: Environment, run: Run, n: int, maxCycles: int, graceUsed: bool)
    requires !env.ioFails(n, ConfigBefore)
    requires 1 <= n <= Limit(maxCycles) + 1
    requires graceUsed <==> n == Limit(maxCycles) + 1
    ensures match ContinueTurn(env, run, n, maxCycles, graceUsed)
      case Leaves(saved, exit) => ContinueEnds(env, n, maxCycles, run, saved, exit)
      case Proceeds(next, _) => ContinueGoesOn(env, n, maxCycles, run, next)
  {
    var after, reason := ContinueStepReads(env, run, n, maxCycles, graceUsed);
    match ContinueTurn(env, run, n, maxCycles, graceUsed) {
      case Leaves(saved, exit) =>
        var failed := env.cycle(n, run).failed;
        ContinueCloses(env, n, failed, after, reason, saved, exit);
      case Proceeds(_, _) =>
    }
  }

  ghost function ContinueLink(env: Environment, maxCycles: int): (int, Run, Run) -> bool {
    (n, before, after) => ContinueGoesOn(env, n, maxCycles, before, after)
  }

  /** The invocation ends before it starts another cycle. */
  ghost predicate ContinueIsCutShort(
    env: Environment, n: int, maxCycles: int, before: Run, saved: seq<(string, StopReason)>, exit: Exit)
  {
    && (exists after :: ContinueGoesOn(env, n, maxCycles, before, after))
    && saved == [] && exit == IoFailed(ConfigBefore) && env.ioFails(n + 1, ConfigBefore)
  }

  /** How a trace from cycle `n` on ends. */
  ghost predicate ContinueLast(env: Environment, n: int, maxCycles: int, t: Trace) {
    var m := |t.passed|;
    if m == 0 then t.saved == [] && t.exit == IoFailed(ConfigBefore) && env.ioFails(n, ConfigBefore)
    else
      || ContinueEnds(env, n + m - 1, maxCycles, t.passed[m - 1], t.saved, t.exit)
      || ContinueIsCutShort(env, n + m - 1, maxCycles, t.passed[m - 1], t.saved, t.exit)
  }

  /** What a trace from cycle `n` on says, cycle by cycle. */
  ghost predicate ContinueReads(env: Environment, run: Run, n: int, maxCycles: int, t: Trace) {
    && (t.passed != [] ==> t.passed[0] == run)
    && Linked(ContinueLink(env, maxCycles), n, t.passed)
    && ContinueLast(env, n, maxCycles, t)
  }

  lemma ContinueLastOn(env: Environment, run: Run, next: Run, n: int, maxCycles: int, spent: bool, t: Trace)
    requires ContinueLast(env, n + 1, maxCycles, t) && ContinueGoesOn(env, n, maxCycles, run, next)
    ensures ContinueLast(env, n, maxCycles, Prepend(run, spent, t))
  {
    var whole := Prepend(run, spent, t);
    if t.passed == [] {
      assert ContinueIsCutShort(env, n, maxCycles, run, t.saved, t.exit);
    } else {
      assert whole.passed[|t.passed|] == t.passed[|t.passed| - 1];
      assert n + 1 + |t.passed| - 1 == n + |whole.passed| - 1;
    }
  }

  lemma ContinueReadsOn(env: Environment, run: Run, next: Run, n: int, maxCycles: int, spent: bool, t: Trace)
    requires ContinueReads(env, next, n + 1, maxCycles, t) && ContinueGoesOn(env, n, maxCycles, run, next)
    ensures ContinueReads(env, run, n, maxCycles, Prepend(run, spent, t))
  {
    LinkedCons(ContinueLink(env, maxCycles), n, run, t.passed);
    ContinueLastOn(env, run, next, n, maxCycles, spent, t);
  }

  lemma ContinueFailsAtOnce(env: Environment, run: Run, n: int, maxCycles: int)
    requires env.ioFails(n, ConfigBefore)
    ensures ContinueReads(env, run, n, maxCycles, Trace([], 0, [], IoFailed(ConfigBefore)))
  {
  }

  lemma ContinueEndsAtOnce(
    env: Environment, run: Run, n: int, maxCycles: int, saved: seq<(string, StopReason)>, exit: Exit)
    requires ContinueEnds(env, n, maxCycles, run, saved, exit)
    ensures ContinueReads(env, run, n, maxCycles, Trace([run], 0, saved, exit))
  {
  }

  /** The first cycle of a trace: what it says, and how it is followed by the rest. */
  lemma ContinueUnrolls(env: Environment, run: Run, n: int, maxCycles: int, graceUsed: bool) returns (turn: Turn)
    requires !env.ioFails(n, ConfigBefore)
    requires 1 <= n <= Limit(maxCycles) + 1
    requires graceUsed <==> n == Limit(maxCycles) + 1
    ensures turn.Leaves? ==>
      && ContinueEnds(env, n, maxCycles, run, turn.saved, turn.exit)
      && ContinueFrom(env, run, n, maxCycles, graceUsed) == Trace([run], 0, turn.saved, turn.exit)
    ensures turn.Proceeds? ==>
      && ContinueGoesOn(env, n, maxCycles, run, turn.next)
      && ((n < maxCycles && !turn.spendsGrace) || (n == Limit(maxCycles) && !graceUsed && turn.spendsGrace))
      && ContinueFrom(env, run, n, maxCycles, graceUsed)
         == Prepend(run, turn.spendsGrace,
                    ContinueFrom(env, turn.next, n + 1, maxCycles, graceUsed || turn.spendsGrace))
  {
    turn := ContinueTurn(env, run, n, maxCycles, graceUsed);
    ContinueTurnReads(env, run, n, maxCycles, graceUsed);
    ContinueProceedsWithin(env, run, n, maxCycles, graceUsed);
    if turn.Proceeds? {
      assert turn.spendsGrace ==> n >= maxCycles;
    }
  }

  lemma {:induction false} ContinueFromReads(
    env: Environment, run: Run, n: int, maxCycles: int, graceUsed: bool, t: Trace)
    requires 1 <= n <= Limit(maxCycles) + 1
    requires graceUsed <==> n == Limit(maxCycles) + 1
    requires t == ContinueFrom(env, run, n, maxCycles, graceUsed)
    ensures ContinueReads(env, run, n, maxCycles, t)
    decreases if graceUsed then 0 else 1, maxCycles - n
  {
    if env.ioFails(n, ConfigBefore) {
      ContinueFailsAtOnce(env, run, n, maxCycles);
    } else {
      var turn := ContinueUnrolls(env, run, n, maxCycles, graceUsed);
      match turn
      case Leaves(saved, exit) =>
        ContinueEndsAtOnce(env, run, n, maxCycles, saved, exit);
      case Proceeds(next, spends) =>
        var rest := ContinueFrom(env, next, n + 1, maxCycles, graceUsed || spends);
        ContinueFromReads(env, next, n + 1, maxCycles, graceUsed || spends, rest);
        ContinueReadsOn(env, run, next, n, maxCycles, spends, rest);
    }
  }

  // ----- the foreground loop -----

  predicate ForegroundStep(env: Environment, n: int, before: Run, after: Run, reason: StopReason) {
    var ret := env.cycle(n, before);
    && !env.ioFails(n, ConfigBefore)
    && Hands(ret, before, after)
    && Explains(reason, ret, after, LastAsks(ret.result), AtTheBoundary(env.flag(n)))
  }

  /** The question to a human was answered during the cycle, which is written down first. */
  predicate Answered(ret: CycleReturn, before: Run, after: Run) {
    !ret.failed && after.humanReplies > before.humanReplies
  }

  ghost predicate ForegroundGoesOn(env: Environment, n: int, before: Run, after: Run) {
    && ForegroundStep(env, n, before, after, NoReason)
    && (Answered(env.cycle(n, before), before, after) ==> !env.ioFails(n, WaitingJournal))
    && env.flag(n) == Absent
    && forall p <- ForegroundCalls(env.cycle(n, before).failed, NoReason, NoReason) :: !env.ioFails(n, p)
  }

  ghost predicate ForegroundEnds(env: Environment, n: int, before: Run, saved: seq<(string, StopReason)>, exit: Exit) {
    exists after, reason ::
      && ForegroundStep(env, n, before, after, reason)
      && var ret := env.cycle(n, before);
         if Answered(ret, before, after) && env.ioFails(n, WaitingJournal) then
           saved == [] && exit == IoFailed(WaitingJournal)
         else if env.flag(n) == Unusable then saved == [] && exit == FlagFailed
         else Closes(env, n, ForegroundCalls(ret.failed, after.latestStopReason, reason), ret.failed, after, reason,
                     saved, exit)
  }

  lemma ForegroundStepReads(env: Environment, run: Run, n: int) returns (after: Run, reason: StopReason)
    requires !env.ioFails(n, ConfigBefore)
    ensures ForegroundStep(env, n, run, after, reason)
    ensures after == MergeCycleRun(run, env.cycle(n, run).result)
    ensures var ret := env.cycle(n, run);
      reason == DetermineForegroundStopReason(ret.result, after, ret.failed, env.flag(n) == Present)
  {
    var ret := env.cycle(n, run);
    after := if ret.result.run.id != "" then ret.result.run else run;
    reason := DetermineForegroundStopReason(ret.result, after, ret.failed, env.flag(n) == Present);
  }

  lemma ForegroundCloses(
    env: Environment, n: int, failed: bool, after: Run, reason: StopReason,
    saved: seq<(string, StopReason)>, exit: Exit)
    requires
      var writes := reason !in {NoReason, after.latestStopReason};
      if env.ioFails(n, ConfigAfter) then saved == [] && exit == IoFailed(ConfigAfter)
      else if writes && env.ioFails(n, SaveReason) then saved == [] && exit == IoFailed(SaveReason)
      else
        && saved == (if writes then [(after.id, reason)] else [])
        && if env.ioFails(n, Report) then exit == IoFailed(Report)
           else if !failed && env.ioFails(n, CycleJournal) then exit == IoFailed(CycleJournal)
           else
             && reason != NoReason
             && exit == if env.ioFails(n, StopJournal) then IoFailed(StopJournal)
                        else Stopped(reason, failed, after.(latestStopReason := reason))
    ensures Closes(env, n, ForegroundCalls(failed, after.latestStopReason, reason), failed, after, reason, saved, exit)
  {
    var calls := ForegroundCalls(failed, after.latestStopReason, reason);
    var writes := reason !in {NoReason, after.latestStopReason};
    var toReport := if writes then 2 else 1;
    var last := if failed then toReport + 1 else toReport + 2;
    assert calls[0] == ConfigAfter && calls[toReport] == Report;
    assert |calls| == if reason == NoReason then last else last + 1;
    assert reason != NoReason ==> calls[last] == StopJournal;
    assert !failed ==> calls[toReport + 1] == CycleJournal;
    assert writes ==> calls[1] == SaveReason;
    var j := if env.ioFails(n, ConfigAfter) then 0
             else if writes && env.ioFails(n, SaveReason) then 1
             else if env.ioFails(n, Report) then toReport
             else if !failed && env.ioFails(n, CycleJournal) then toReport + 1
             else if env.ioFails(n, StopJournal) then last
             else last + 1;
    SucceedingIs(env, n, calls, j);
    assert SaveReason in calls[..j] <==> writes && 1 < j by {
      if writes && 1 < j {
        assert calls[..j][1] == SaveReason;
      }
    }
  }

  lemma ForegroundTurnReads(env: Environment, run: Run, n: int)
    requires !env.ioFails(n, ConfigBefore)
    ensures match ForegroundTurn(env, run, n)
      case Leaves(saved, exit) => ForegroundEnds(env, n, run, saved, exit)
      case Proceeds(next, _) => ForegroundGoesOn(env, n, run, next)
  {
    var after, reason := ForegroundStepReads(env, run, n);
    match ForegroundTurn(env, run, n) {
      case Leaves(saved, exit) =>
        var ret := env.cycle(n, run);
        if !(Answered(ret, run, after) && env.ioFails(n, WaitingJournal)) && env.flag(n) != Unusable {
          ForegroundCloses(env, n, ret.failed, after, reason, saved, exit);
        }
      case Proceeds(_, _) =>
    }
  }

  /** The window ends with `next` to be handed on, or the invocation ends before cycle `n`. */
  predicate ForegroundIsCutShort(
    env: Environment, n: int, atEnd: bool, next: Run, saved: seq<(string, StopReason)>, exit: Exit)
  {
    && saved == []
    && if atEnd then exit == StillRunning(next) else exit == IoFailed(ConfigBefore) && env.ioFails(n, ConfigBefore)
  }

  ghost predicate ForegroundStillGoesOn(
    env: Environment, n: int, atEnd: bool, before: Run, saved: seq<(string, StopReason)>, exit: Exit)
  {
    exists next ::
      ForegroundGoesOn(env, n, before, next) && ForegroundIsCutShort(env, n + 1, atEnd, next, saved, exit)
  }

  ghost function ForegroundLink(env: Environment): (int, Run, Run) -> bool {
    (n, before, after) => ForegroundGoesOn(env, n, before, after)
  }

  /** How what a window of `budget` cycles shows from cycle `n` on ends. */
  ghost predicate ForegroundLast(env: Environment, run: Run, n: int, budget: nat, t: Trace) {
    var m := |t.passed|;
    if m == 0 then ForegroundIsCutShort(env, n, budget == 0, run, t.saved, t.exit)
    else
      || ForegroundEnds(env, n + m - 1, t.passed[m - 1], t.saved, t.exit)
      || ForegroundStillGoesOn(env, n + m - 1, m == budget, t.passed[m - 1], t.saved, t.exit)
  }

  /** The same for the foreground loop, of which a window shows the first `budget` cycles. */
  ghost predicate ForegroundReads(env: Environment, run: Run, n: int, budget: nat, t: Trace) {
    && |t.passed| <= budget && t.graces == 0
    && (t.passed != [] ==> t.passed[0] == run)
    && Linked(ForegroundLink(env), n, t.passed)
    && ForegroundLast(env, run, n, budget, t)
  }

  lemma ForegroundLastOn(env: Environment, run: Run, next: Run, n: int, budget: nat, t: Trace)
    requires budget > 0 && ForegroundLast(env, next, n + 1, budget - 1, t) && ForegroundGoesOn(env, n, run, next)
    ensures ForegroundLast(env, run, n, budget, Prepend(run, false, t))
  {
    var whole := Prepend(run, false, t);
    if t.passed == [] {
      assert ForegroundStillGoesOn(env, n, budget == 1, run, t.saved, t.exit);
    } else {
      assert whole.passed[|t.passed|] == t.passed[|t.passed| - 1];
      assert n + 1 + |t.passed| - 1 == n + |whole.passed| - 1;
    }
  }

  lemma ForegroundReadsOn(env: Environment, run: Run, next: Run, n: int, budget: nat, t: Trace)
    requires budget > 0 && ForegroundReads(env, next, n + 1, budget - 1, t) && ForegroundGoesOn(env, n, run, next)
    ensures ForegroundReads(env, run, n, budget, Prepend(run, false, t))
  {
    LinkedCons(ForegroundLink(env), n, run, t.passed);
    ForegroundLastOn(env, run, next, n, budget, t);
  }

  lemma {:induction false} ForegroundFromReads(env: Environment, run: Run, n: int, budget: nat)
    ensures ForegroundReads(env, run, n, budget, ForegroundFrom(env, run, n, budget))
    decreases budget
  {
    if budget > 0 && !env.ioFails(n, ConfigBefore) {
      ForegroundTurnReads(env, run, n);
      match ForegroundTurn(env, run, n)
      case Leaves(_, _) =>
      case Proceeds(next, _) =>
        ForegroundFromReads(env, next, n + 1, budget - 1);
        ForegroundReadsOn(env, run, next, n, budget, ForegroundFrom(env, next, n + 1, budget - 1));
    }
  }

  // ----- whole invocations -----

  /** For every environment: what an invocation of either loop says, cycle by cycle. */
  lemma InvocationsRead(env: Environment, run: Run, maxCycles: int, budget: nat)
    ensures ContinueReads(env, run, 1, maxCycles, ContinueTrace(env, run, maxCycles))
    ensures if env.ioFails(0, StartJournal) then
              ForegroundTrace(env, run, budget) == Trace([], 0, [], IoFailed(StartJournal))
            else ForegroundReads(env, run, 1, budget, ForegroundTrace(env, run, budget))
  {
    ContinueFromReads(env, run, 1, maxCycles, false, ContinueTrace(env, run, maxCycles));
    ForegroundFromReads(env, run, 1, budget);
  }

  /** Each cycle is given what the one before it returned, or what that one was given if it returned
      a run without an id; so is the run of a stop, with the reason put in. */
  ghost predicate CarriesTheRun(env: Environment, run: Run, t: Trace) {
    var m := |t.passed|;
    && (m > 0 ==> t.passed[0] == run)
    && (forall k :: 0 < k < m ==>
          var returned := env.cycle(k, t.passed[k - 1]).result.run;
          t.passed[k] == if returned.id != "" then returned else t.passed[k - 1])
    && (t.exit.Stopped? ==>
          && m > 0
          && var returned := env.cycle(m, t.passed[m - 1]).result.run;
             var last := if returned.id != "" then returned else t.passed[m - 1];
             t.exit.run == last.(latestStopReason := t.exit.reason))
  }

  lemma LinksHandOn(env: Environment, link: (int, Run, Run) -> bool, passed: seq<Run>)
    requires Linked(link, 1, passed)
    requires forall n, before, after :: link(n, before, after) ==> Hands(env.cycle(n, before), before, after)
    ensures forall k :: 0 < k < |passed| ==> Hands(env.cycle(k, passed[k - 1]), passed[k - 1], passed[k])
  {
    forall k | 0 < k < |passed| ensures Hands(env.cycle(k, passed[k - 1]), passed[k - 1], passed[k]) {
      assert link(1 + k - 1, passed[k - 1], passed[k]) && 1 + k - 1 == k;
    }
  }

  lemma BoundedLoopCarriesTheRun(env: Environment, run: Run, maxCycles: int)
    ensures CarriesTheRun(env, run, ContinueTrace(env, run, maxCycles))
  {
    InvocationsRead(env, run, maxCycles, 0);
    LinksHandOn(env, ContinueLink(env, maxCycles), ContinueTrace(env, run, maxCycles).passed);
  }

  lemma ForegroundLoopCarriesTheRun(env: Environment, run: Run, budget: nat)
    ensures CarriesTheRun(env, run, ForegroundTrace(env, run, budget))
  {
    InvocationsRead(env, run, 1, budget);
    if !env.ioFails(0, StartJournal) {
      LinksHandOn(env, ForegroundLink(env), ForegroundTrace(env, run, budget).passed);
    }
  }

  /** The cycle succeeds and returns a completed run that awaits no approval. */
  predicate Completes(ret: CycleReturn) {
    !ret.failed && ret.result.run.id != "" && ret.result.run.status == Completed && !Waits(ret.result.run)
  }

  /** Cycle `k` of an invocation that completes the run is its last, and if no call fails it is a
      stop of a completed run. */
  ghost predicate CompletionStops(env: Environment, t: Trace, k: int)
    requires 0 < k <= |t.passed|
  {
    var ret := env.cycle(k, t.passed[k - 1]);
    Completes(ret) ==>
      && k == |t.passed|
      && (|| t.exit.IoFailed?
          || t.exit == FlagFailed
          || t.exit == Stopped(PlannerComplete, false, ret.result.run.(latestStopReason := PlannerComplete)))
      && (t.exit == FlagFailed ==> env.flag(k) == Unusable)
      && (t.exit.IoFailed? ==> env.ioFails(k, t.exit.point))
  }

  lemma CompletionStopsTheBoundedLoop(env: Environment, run: Run, maxCycles: int, k: int)
    requires 0 < k <= |ContinueTrace(env, run, maxCycles).passed|
    ensures CompletionStops(env, ContinueTrace(env, run, maxCycles), k)
  {
    InvocationsRead(env, run, maxCycles, 0);
    var t := ContinueTrace(env, run, maxCycles);
    if k < |t.passed| {
      assert ContinueLink(env, maxCycles)(1 + k - 1, t.passed[k - 1], t.passed[k]);
    }
  }

  lemma CompletionStopsTheForegroundLoop(env: Environment, run: Run, budget: nat, k: int)
    requires 0 < k <= |ForegroundTrace(env, run, budget).passed|
    ensures CompletionStops(env, ForegroundTrace(env, run, budget), k)
  {
    InvocationsRead(env, run, 1, budget);
    var t := ForegroundTrace(env, run, budget);
    if k < |t.passed| {
      assert ForegroundLink(env)(1 + k - 1, t.passed[k - 1], t.passed[k]);
    }
  }
}
