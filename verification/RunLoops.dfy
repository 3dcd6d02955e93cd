/** The two run-control loops: `executeContinueCycles` (bounded, with a one-time execute
    hand-off grace) and `executeForegroundLoop` (unbounded, stopped by a flag file).

    One planner/executor cycle is an arbitrary function of the cycle number and the run it
    is given, every journal/report/store call may fail, and the stop flag is whatever the
    boundary check sees.  Each loop is a method proved equal to a trace function; the
    theorems are about the traces, for every environment. */
module RunLoops {
  import opened Text

  // ----- data -----

  datatype StopReason =
    | NoReason
    | PlannerComplete
    | PlannerAskHuman
    | OperatorStopRequested
    | MaxCyclesReached
    | TransportOrProcessError
    | PlannerValidationFailed
    | MissingRequiredConfig
    | ExecutorFailed
    | ExecutorApprovalRequired
    | OtherReason(text: string)

  datatype RunStatus = Initialized | Completed | Failed | Cancelled | OtherStatus(text: string)

  datatype Outcome = Execute | AskHuman | CollectContext | Pause | Complete | OtherOutcome(text: string)

  /** A persisted run; `rest` stands for every field the loops only carry along. */
  datatype Run = Run(
    id: string,
    status: RunStatus,
    latestStopReason: StopReason,
    runtimeIssueReason: StopReason,
    executorApproval: Option<string>,
    humanReplies: nat,
    rest: string)

  datatype PlannerTurn = PlannerTurn(outcome: Outcome, hasExecute: bool)

  datatype CycleResult = CycleResult(
    run: Run,
    first: PlannerTurn,
    reconsideration: Option<PlannerTurn>,
    second: Option<PlannerTurn>,
    executorDispatched: bool)

  /** What one call of the cycle runner gives back: a result and whether it also failed. */
  datatype CycleReturn = CycleReturn(result: CycleResult, failed: bool)

  /** The calls around a cycle that can fail and make a loop return their error. */
  datatype IoPoint =
    StartJournal | ConfigBefore | WaitingJournal | ConfigAfter | Report | CycleJournal | SaveReason | StopJournal

  /** What the stop-flag check at one boundary meets. `Unusable` is a failed stat, a directory
      in the flag's place, or a file that vanishes between the stat and the removal. */
  datatype FlagSighting = Absent | Present | Unusable

  datatype Environment = Environment(
    cycle: (int, Run) -> CycleReturn,
    ioFails: (int, IoPoint) -> bool,
    flag: int -> FlagSighting)

  datatype Exit =
    | Stopped(reason: StopReason, cycleFailed: bool, run: Run)
    | IoFailed(point: IoPoint)
    | FlagFailed
    | StillRunning(next: Run)

  /** One invocation: the runs handed to the cycle runner in order, how often the grace was
      spent, the stop reasons written to the store, and how the invocation ended. */
  datatype Trace = Trace(passed: seq<Run>, graces: nat, saved: seq<(string, StopReason)>, exit: Exit)

  // ----- decisions -----

  predicate AwaitsApproval(run: Run) {
    || run.latestStopReason == ExecutorApprovalRequired
    || (run.executorApproval.Some? && TrimSpace(run.executorApproval.value) == "required")
  }

  function ReasonOfFailedCycle(run: Run): StopReason {
    match run.runtimeIssueReason
    case PlannerValidationFailed => PlannerValidationFailed
    case MissingRequiredConfig => MissingRequiredConfig
    case ExecutorFailed => ExecutorFailed
    case _ => TransportOrProcessError
  }

  function DetermineContinueStopReason(
    result: CycleResult, run: Run, failed: bool, cycleNumber: int, maxCycles: int, allowGrace: bool): StopReason
  {
    if AwaitsApproval(run) then ExecutorApprovalRequired
    else if failed then ReasonOfFailedCycle(run)
    else if run.status == Completed then PlannerComplete
    else if result.first.outcome == AskHuman then PlannerAskHuman
    else if cycleNumber >= maxCycles && !allowGrace then MaxCyclesReached
    else NoReason
  }

  function DetermineForegroundStopReason(
    result: CycleResult, run: Run, failed: bool, stopRequested: bool): StopReason
  {
    if AwaitsApproval(run) then ExecutorApprovalRequired
    else if failed then ReasonOfFailedCycle(run)
    else if run.status == Completed then PlannerComplete
    else if LatestForegroundPlannerOutcome(result) == AskHuman then PlannerAskHuman
    else if stopRequested then OperatorStopRequested
    else NoReason
  }

  function LatestForegroundPlannerOutcome(result: CycleResult): Outcome {
    if result.second.Some? then result.second.value.outcome
    else if result.reconsideration.Some? then result.reconsideration.value.outcome
    else result.first.outcome
  }

  function MergeCycleRun(current: Run, result: CycleResult): Run {
    if result.run.id != "" then result.run else current
  }

  function PreferredSecondPlannerTurn(result: CycleResult): Option<PlannerTurn> {
    if result.second.Some? then result.second else result.reconsideration
  }

  predicate ShouldDispatchExecutor(turn: PlannerTurn) {
    turn.outcome == Execute && turn.hasExecute
  }

  predicate ContinueReadyExecuteHandoff(result: CycleResult) {
    && !result.executorDispatched
    && PreferredSecondPlannerTurn(result).Some?
    && ShouldDispatchExecutor(PreferredSecondPlannerTurn(result).value)
  }

  // ----- traces -----

  datatype Turn = Leaves(saved: seq<(string, StopReason)>, exit: Exit) | Proceeds(next: Run, spendsGrace: bool)

  predicate AllowsGrace(ret: CycleReturn, n: int, maxCycles: int, graceUsed: bool) {
    n >= maxCycles && ContinueReadyExecuteHandoff(ret.result) && !graceUsed
  }

  /** What cycle `n` of the bounded loop leads to. */
  function ContinueTurn(env: Environment, run: Run, n: int, maxCycles: int, graceUsed: bool): Turn {
    var ret := env.cycle(n, run);
    var effective := MergeCycleRun(run, ret.result);
    var grace := AllowsGrace(ret, n, maxCycles, graceUsed);
    var reason := DetermineContinueStopReason(ret.result, effective, ret.failed, n, maxCycles, grace);
    if env.ioFails(n, ConfigAfter) then Leaves([], IoFailed(ConfigAfter))
    else if env.ioFails(n, Report) then Leaves([], IoFailed(Report))
    else if !ret.failed && env.ioFails(n, CycleJournal) then Leaves([], IoFailed(CycleJournal))
    else if reason == NoReason then Proceeds(effective, grace)
    else
      var writes := effective.latestStopReason != reason;
      if writes && env.ioFails(n, SaveReason) then Leaves([], IoFailed(SaveReason))
      else
        var saved := if writes then [(effective.id, reason)] else [];
        if env.ioFails(n, StopJournal) then Leaves(saved, IoFailed(StopJournal))
        else Leaves(saved, Stopped(reason, ret.failed, effective.(latestStopReason := reason)))
  }

  /** What cycle `n` of the foreground loop leads to. */
  function ForegroundTurn(env: Environment, run: Run, n: int): Turn {
    var ret := env.cycle(n, run);
    var effective := MergeCycleRun(run, ret.result);
    var reason := DetermineForegroundStopReason(ret.result, effective, ret.failed, env.flag(n) == Present);
    var writes := reason != NoReason && effective.latestStopReason != reason;
    if !ret.failed && effective.humanReplies > run.humanReplies && env.ioFails(n, WaitingJournal) then
      Leaves([], IoFailed(WaitingJournal))
    else if env.flag(n) == Unusable then Leaves([], FlagFailed)
    else if env.ioFails(n, ConfigAfter) then Leaves([], IoFailed(ConfigAfter))
    else if writes && env.ioFails(n, SaveReason) then Leaves([], IoFailed(SaveReason))
    else
      var saved := if writes then [(effective.id, reason)] else [];
      if env.ioFails(n, Report) then Leaves(saved, IoFailed(Report))
      else if !ret.failed && env.ioFails(n, CycleJournal) then Leaves(saved, IoFailed(CycleJournal))
      else if reason == NoReason then Proceeds(effective, false)
      else if env.ioFails(n, StopJournal) then Leaves(saved, IoFailed(StopJournal))
      else Leaves(saved, Stopped(reason, ret.failed, effective.(latestStopReason := reason)))
  }

  function Prepend(run: Run, spent: bool, t: Trace): Trace {
    Trace([run] + t.passed, (if spent then 1 else 0) + t.graces, t.saved, t.exit)
  }

  /** The bounded loop from cycle `n` on. */
  function ContinueFrom(env: Environment, run: Run, n: int, maxCycles: int, graceUsed: bool): Trace
    decreases if graceUsed then 0 else 1, maxCycles - n
  {
    if env.ioFails(n, ConfigBefore) then Trace([], 0, [], IoFailed(ConfigBefore))
    else
      match ContinueTurn(env, run, n, maxCycles, graceUsed)
      case Leaves(saved, exit) => Trace([run], 0, saved, exit)
      case Proceeds(next, spends) =>
        Prepend(run, spends, ContinueFrom(env, next, n + 1, maxCycles, graceUsed || spends))
  }

  /** The first `budget` cycles of the foreground loop from cycle `n` on. */
  function ForegroundFrom(env: Environment, run: Run, n: int, budget: nat): Trace
    decreases budget
  {
    if budget == 0 then Trace([], 0, [], StillRunning(run))
    else if env.ioFails(n, ConfigBefore) then Trace([], 0, [], IoFailed(ConfigBefore))
    else
      match ForegroundTurn(env, run, n)
      case Leaves(saved, exit) => Trace([run], 0, saved, exit)
      case Proceeds(next, _) => Prepend(run, false, ForegroundFrom(env, next, n + 1, budget - 1))
  }

  function ContinueTrace(env: Environment, run: Run, maxCycles: int): Trace {
    ContinueFrom(env, run, 1, maxCycles, false)
  }

  function ForegroundTrace(env: Environment, run: Run, budget: nat): Trace {
    if env.ioFails(0, StartJournal) then Trace([], 0, [], IoFailed(StartJournal))
    else ForegroundFrom(env, run, 1, budget)
  }

  // ----- the loops -----

  function Append(pre: Trace, post: Trace): Trace {
    Trace(pre.passed + post.passed, pre.graces + post.graces, pre.saved + post.saved, post.exit)
  }

  /** Moving one cycle from the rest of a trace to the part already seen. */
  lemma AppendPrepend(pre: Trace, run: Run, spent: bool, post: Trace)
    ensures Append(pre, Prepend(run, spent, post))
         == Append(Trace(pre.passed + [run], pre.graces + (if spent then 1 else 0), pre.saved, pre.exit), post)
  {
  }

  lemma AppendNothing(t: Trace)
    ensures Append(Trace([], 0, [], FlagFailed), t) == t
  {
  }

  method ExecuteContinueCycles(env: Environment, run: Run, maxCycles: int) returns (t: Trace)
    ensures t == ContinueTrace(env, run, maxCycles)
  {
    var currentRun := run;
    var graceUsed := false;
    var cycleNumber := 1;
    var passed: seq<Run> := [];
    var graces := 0;
    ghost var whole := ContinueTrace(env, run, maxCycles);
    AppendNothing(whole);
    while true
      invariant whole
             == Append(Trace(passed, graces, [], FlagFailed),
                       ContinueFrom(env, currentRun, cycleNumber, maxCycles, graceUsed))
      decreases if graceUsed then 0 else 1, maxCycles - cycleNumber
    {
      if env.ioFails(cycleNumber, ConfigBefore) {
        return Trace(passed, graces, [], IoFailed(ConfigBefore));
      }
      var turn := ContinueCycle(env, currentRun, cycleNumber, maxCycles, graceUsed);
      ContinueProceedsWithin(env, currentRun, cycleNumber, maxCycles, graceUsed);
      match turn {
        case Leaves(saved, exit) =>
          return Trace(passed + [currentRun], graces, saved, exit);
        case Proceeds(next, spendsGrace) =>
          AppendPrepend(Trace(passed, graces, [], FlagFailed), currentRun, spendsGrace,
            ContinueFrom(env, next, cycleNumber + 1, maxCycles, graceUsed || spendsGrace));
          passed := passed + [currentRun];
          if spendsGrace {
            graceUsed := true;
            graces := graces + 1;
          }
          currentRun := next;
          cycleNumber := cycleNumber + 1;
      }
    }
  }

  lemma ContinueProceedsWithin(env: Environment, run: Run, n: int, maxCycles: int, graceUsed: bool)
    ensures var turn := ContinueTurn(env, run, n, maxCycles, graceUsed);
      turn.Proceeds? ==> (n < maxCycles && !turn.spendsGrace) || (!graceUsed && turn.spendsGrace)
  {
  }

  /** The body of the bounded loop, from the cycle call on. */
  method ContinueCycle(env: Environment, run: Run, n: int, maxCycles: int, graceUsed: bool) returns (turn: Turn)
    ensures turn == ContinueTurn(env, run, n, maxCycles, graceUsed)
  {
    var ret := env.cycle(n, run);
    var effectiveRun := MergeCycleRun(run, ret.result);
    if env.ioFails(n, ConfigAfter) {
      return Leaves([], IoFailed(ConfigAfter));
    }
    var ready := ContinueReadyExecuteHandoff(ret.result);
    var allowGrace := n >= maxCycles && ready && !graceUsed;
    var stopReason := DetermineContinueStopReason(ret.result, effectiveRun, ret.failed, n, maxCycles, allowGrace);
    if env.ioFails(n, Report) {
      return Leaves([], IoFailed(Report));
    }
    if !ret.failed {
      if env.ioFails(n, CycleJournal) {
        return Leaves([], IoFailed(CycleJournal));
      }
    }
    if stopReason == NoReason {
      return Proceeds(effectiveRun, allowGrace);
    }
    var saved: seq<(string, StopReason)> := [];
    if effectiveRun.latestStopReason != stopReason {
      if env.ioFails(n, SaveReason) {
        return Leaves([], IoFailed(SaveReason));
      }
      saved := [(effectiveRun.id, stopReason)];
      effectiveRun := effectiveRun.(latestStopReason := stopReason);
    }
    if env.ioFails(n, StopJournal) {
      return Leaves(saved, IoFailed(StopJournal));
    }
    return Leaves(saved, Stopped(stopReason, ret.failed, effectiveRun));
  }

  /** `budget` is the observation window: the loop itself has no bound, so the method follows
      it for any number of cycles the caller asks for. */
  method ExecuteForegroundLoop(env: Environment, run: Run, budget: nat) returns (t: Trace)
    ensures t == ForegroundTrace(env, run, budget)
  {
    if env.ioFails(0, StartJournal) {
      return Trace([], 0, [], IoFailed(StartJournal));
    }
    var currentRun := run;
    var passed: seq<Run> := [];
    var cycleNumber := 1;
    ghost var whole := ForegroundFrom(env, run, 1, budget);
    AppendNothing(whole);
    var remaining := budget;
    while remaining > 0
      invariant whole
            == Append(Trace(passed, 0, [], FlagFailed), ForegroundFrom(env, currentRun, cycleNumber, remaining))
    {
      if env.ioFails(cycleNumber, ConfigBefore) {
        return Trace(passed, 0, [], IoFailed(ConfigBefore));
      }
      var turn := ForegroundCycle(env, currentRun, cycleNumber);
      ForegroundAdvances(env, passed, currentRun, cycleNumber, remaining);
      match turn {
        case Leaves(saved, exit) =>
          return Trace(passed + [currentRun], 0, saved, exit);
        case Proceeds(next, _) =>
          passed := passed + [currentRun];
          currentRun := next;
          cycleNumber := cycleNumber + 1;
          remaining := remaining - 1;
      }
    }
    return Trace(passed, 0, [], StillRunning(currentRun));
  }

  /** One round of the foreground loop, seen from the whole trace. */
  lemma ForegroundAdvances(env: Environment, passed: seq<Run>, run: Run, n: int, budget: nat)
    requires budget > 0 && !env.ioFails(n, ConfigBefore)
    ensures var whole := Append(Trace(passed, 0, [], FlagFailed), ForegroundFrom(env, run, n, budget));
      match ForegroundTurn(env, run, n)
      case Leaves(saved, exit) => whole == Trace(passed + [run], 0, saved, exit)
      case Proceeds(next, _) =>
        whole == Append(Trace(passed + [run], 0, [], FlagFailed), ForegroundFrom(env, next, n + 1, budget - 1))
  {
    match ForegroundTurn(env, run, n)
    case Leaves(_, _) =>
    case Proceeds(next, _) =>
      AppendPrepend(Trace(passed, 0, [], FlagFailed), run, false, ForegroundFrom(env, next, n + 1, budget - 1));
  }

  /** The body of the foreground loop, from the cycle call on. */
  method ForegroundCycle(env: Environment, run: Run, n: int) returns (turn: Turn)
    ensures turn == ForegroundTurn(env, run, n)
  {
    var ret := env.cycle(n, run);
    var effectiveRun := MergeCycleRun(run, ret.result);
    if !ret.failed && effectiveRun.humanReplies > run.humanReplies {
      if env.ioFails(n, WaitingJournal) {
        return Leaves([], IoFailed(WaitingJournal));
      }
    }
    var stopRequested := false;
    match env.flag(n) {
      case Unusable => return Leaves([], FlagFailed);
      case Present => stopRequested := true;
      case Absent =>
    }
    if env.ioFails(n, ConfigAfter) {
      return Leaves([], IoFailed(ConfigAfter));
    }
    var stopReason := DetermineForegroundStopReason(ret.result, effectiveRun, ret.failed, stopRequested);
    var saved: seq<(string, StopReason)> := [];
    if stopReason != NoReason && effectiveRun.latestStopReason != stopReason {
      if env.ioFails(n, SaveReason) {
        return Leaves([], IoFailed(SaveReason));
      }
      saved := [(effectiveRun.id, stopReason)];
      effectiveRun := effectiveRun.(latestStopReason := stopReason);
    }
    if env.ioFails(n, Report) {
      return Leaves(saved, IoFailed(Report));
    }
    if !ret.failed {
      if env.ioFails(n, CycleJournal) {
        return Leaves(saved, IoFailed(CycleJournal));
      }
    }
    if stopReason == NoReason {
      return Proceeds(effectiveRun, false);
    }
    if env.ioFails(n, StopJournal) {
      return Leaves(saved, IoFailed(StopJournal));
    }
    return Leaves(saved, Stopped(stopReason, ret.failed, effectiveRun));
  }

  // ----- the bounded loop ends -----

  function Limit(maxCycles: int): int {
    if maxCycles < 1 then 1 else maxCycles
  }

  /** The only way past the limit: the cycle ended in a hand-off that is ready, was not
      dispatched, and no other stop condition holds. */
  predicate EarnsGrace(ret: CycleReturn, run: Run) {
    && ContinueReadyExecuteHandoff(ret.result)
    && DetermineContinueStopReason(ret.result, MergeCycleRun(run, ret.result), ret.failed, 0, 0, true) == NoReason
  }

  lemma TurnNearTheLimit(env: Environment, run: Run, n: int, maxCycles: int, graceUsed: bool)
    requires n >= Limit(maxCycles)
    ensures var turn := ContinueTurn(env, run, n, maxCycles, graceUsed);
      && (graceUsed ==> turn.Leaves?)
      && (!graceUsed && turn.Proceeds? ==> turn.spendsGrace && EarnsGrace(env.cycle(n, run), run))
      && (!graceUsed && turn.Leaves? && !turn.exit.IoFailed? ==> !EarnsGrace(env.cycle(n, run), run))
  {
  }

  /** What a trace from cycle `n` on may look like. */
  predicate WithinLimit(env: Environment, n: int, maxCycles: int, graceUsed: bool, t: Trace) {
    var last := Limit(maxCycles) - n;
    && n - 1 + |t.passed| <= Limit(maxCycles) + 1
    && t.graces <= (if graceUsed then 0 else 1)
    && !t.exit.StillRunning?
    && (last >= 0 && |t.passed| == last + 2 ==> EarnsGrace(env.cycle(Limit(maxCycles), t.passed[last]), t.passed[last]))
    && (last >= 0 && |t.passed| == last + 1 && !t.exit.IoFailed? ==>
          !EarnsGrace(env.cycle(Limit(maxCycles), t.passed[last]), t.passed[last]))
  }

  lemma WithinLimitPrepend(env: Environment, n: int, maxCycles: int, run: Run, t: Trace)
    requires 1 <= n < Limit(maxCycles) && WithinLimit(env, n + 1, maxCycles, false, t)
    ensures WithinLimit(env, n, maxCycles, false, Prepend(run, false, t))
  {
    var last := Limit(maxCycles) - n;
    if |t.passed| >= last {
      assert Prepend(run, false, t).passed[last] == t.passed[last - 1];
    }
  }

  lemma {:induction false} ContinueFromEnds(env: Environment, run: Run, n: int, maxCycles: int, graceUsed: bool)
    requires 1 <= n <= Limit(maxCycles) + 1
    requires graceUsed <==> n == Limit(maxCycles) + 1
    ensures WithinLimit(env, n, maxCycles, graceUsed, ContinueFrom(env, run, n, maxCycles, graceUsed))
    decreases if graceUsed then 0 else 1, maxCycles - n
  {
    if !env.ioFails(n, ConfigBefore) {
      ContinueProceedsWithin(env, run, n, maxCycles, graceUsed);
      if n >= Limit(maxCycles) {
        TurnNearTheLimit(env, run, n, maxCycles, graceUsed);
      }
      match ContinueTurn(env, run, n, maxCycles, graceUsed)
      case Leaves(_, exit) =>
      case Proceeds(next, spends) =>
        ContinueFromEnds(env, next, n + 1, maxCycles, graceUsed || spends);
        if n < Limit(maxCycles) {
          WithinLimitPrepend(env, n, maxCycles, run, ContinueFrom(env, next, n + 1, maxCycles, false));
        }
    }
  }

  /** Whatever the cycles do, a bounded invocation ends after at most one cycle beyond its
      limit, spends the grace at most once, and gets the extra cycle exactly when the cycle at
      the limit earned it (a failed journal, report or store call aside). */
  lemma ContinueTerminates(env: Environment, run: Run, maxCycles: int)
    ensures var t := ContinueTrace(env, run, maxCycles); var limit := Limit(maxCycles);
      && |t.passed| <= limit + 1
      && t.graces <= 1
      && !t.exit.StillRunning?
      && (|t.passed| == limit + 1 ==> EarnsGrace(env.cycle(limit, t.passed[limit - 1]), t.passed[limit - 1]))
      && (|t.passed| == limit && !t.exit.IoFailed? ==>
           !EarnsGrace(env.cycle(limit, t.passed[limit - 1]), t.passed[limit - 1]))
  {
    ContinueFromEnds(env, run, 1, maxCycles, false);
  }

  // ----- the bounded loop is a prefix of the unbounded one -----

  /** No call around a cycle fails and nobody raises the stop flag. */
  ghost predicate Calm(env: Environment) {
    && (forall n: int, p: IoPoint :: !env.ioFails(n, p))
    && (forall n: int :: env.flag(n) == Absent)
  }

  /** The two deciders look at different planner turns for "ask human"; this says the
      difference does not matter for this cycle. */
  predicate DecidersAgree(ret: CycleReturn, run: Run) {
    var effective := MergeCycleRun(run, ret.result);
    || AwaitsApproval(effective)
    || ret.failed
    || effective.status == Completed
    || (ret.result.first.outcome == AskHuman <==> LatestForegroundPlannerOutcome(ret.result) == AskHuman)
  }

  /** Below the cycle limit and without a stop request the two deciders give the same answer
      exactly when `DecidersAgree` holds. */
  lemma DecidersAgreeExactly(ret: CycleReturn, run: Run, n: int, maxCycles: int, allowGrace: bool)
    requires n < maxCycles || allowGrace
    ensures var effective := MergeCycleRun(run, ret.result);
      DetermineContinueStopReason(ret.result, effective, ret.failed, n, maxCycles, allowGrace)
      == DetermineForegroundStopReason(ret.result, effective, ret.failed, false)
      <==> DecidersAgree(ret, run)
  {
  }

  ghost predicate AgreeAlong(env: Environment, n: int, passed: seq<Run>) {
    forall i :: 0 <= i < |passed| ==> DecidersAgree(env.cycle(n + i, passed[i]), passed[i])
  }

  lemma AgreeAlongTail(env: Environment, n: int, passed: seq<Run>)
    requires passed != [] && AgreeAlong(env, n, passed)
    ensures DecidersAgree(env.cycle(n, passed[0]), passed[0])
    ensures AgreeAlong(env, n + 1, passed[1..])
  {
    assert env.cycle(n + 0, passed[0]) == env.cycle(n, passed[0]);
    forall i | 0 <= i < |passed[1..]| ensures DecidersAgree(env.cycle(n + 1 + i, passed[1..][i]), passed[1..][i]) {
      assert passed[1..][i] == passed[i + 1];
      assert DecidersAgree(env.cycle(n + (i + 1), passed[i + 1]), passed[i + 1]);
    }
  }

  /** One cycle of the bounded loop against the same cycle of the unbounded one. */
  lemma TurnsCorrespond(env: Environment, run: Run, n: int, maxCycles: int, graceUsed: bool)
    requires Calm(env) && DecidersAgree(env.cycle(n, run), run)
    ensures var c := ContinueTurn(env, run, n, maxCycles, graceUsed); var f := ForegroundTurn(env, run, n);
      && (c.Proceeds? ==> f == Proceeds(c.next, false))
      && (c.Leaves? ==> c.exit.Stopped?)
      && (c.Leaves? && c.exit.reason == MaxCyclesReached ==> f.Proceeds?)
      && (c.Leaves? && c.exit.reason != MaxCyclesReached ==> f == c)
      && (n < maxCycles && f.Proceeds? ==> c == Proceeds(f.next, false))
      && (n <= maxCycles && f.Leaves? ==> c == f)
  {
    assert !env.ioFails(n, ConfigAfter) && !env.ioFails(n, Report) && !env.ioFails(n, CycleJournal);
    assert !env.ioFails(n, SaveReason) && !env.ioFails(n, StopJournal) && !env.ioFails(n, WaitingJournal);
    assert env.flag(n) == Absent;
  }

  lemma ForegroundRunsOn(env: Environment, run: Run, n: int, budget: nat)
    requires Calm(env) && budget > 0
    ensures |ForegroundFrom(env, run, n, budget).passed| > 0
  {
    assert !env.ioFails(n, ConfigBefore);
  }

  /** The bounded trace `c` against the unbounded trace `f`: a prefix, and the same stop unless
      it is the limit. */
  ghost predicate Simulated(c: Trace, f: Trace) {
    && c.exit.Stopped?
    && c.passed <= f.passed
    && (c.exit.reason == MaxCyclesReached ==> |f.passed| > |c.passed|)
    && (c.exit.reason != MaxCyclesReached ==> f.passed == c.passed && f.saved == c.saved && f.exit == c.exit)
  }

  lemma StopIsSimulated(env: Environment, run: Run, n: int, maxCycles: int, graceUsed: bool, budget: nat)
    requires Calm(env) && DecidersAgree(env.cycle(n, run), run) && budget > 1
    requires ContinueTurn(env, run, n, maxCycles, graceUsed).Leaves?
    ensures Simulated(ContinueFrom(env, run, n, maxCycles, graceUsed), ForegroundFrom(env, run, n, budget))
  {
    assert !env.ioFails(n, ConfigBefore);
    TurnsCorrespond(env, run, n, maxCycles, graceUsed);
    if ContinueTurn(env, run, n, maxCycles, graceUsed).exit.reason == MaxCyclesReached {
      ForegroundRunsOn(env, ForegroundTurn(env, run, n).next, n + 1, budget - 1);
    }
  }

  /** A cycle after which both loops go on is the first of both traces. */
  lemma BothUnroll(env: Environment, run: Run, n: int, maxCycles: int, graceUsed: bool, budget: nat)
    requires Calm(env) && DecidersAgree(env.cycle(n, run), run) && budget > 0
    requires ContinueTurn(env, run, n, maxCycles, graceUsed).Proceeds?
    ensures var turn := ContinueTurn(env, run, n, maxCycles, graceUsed);
      && ((n < maxCycles && !turn.spendsGrace) || (!graceUsed && turn.spendsGrace))
      && ContinueFrom(env, run, n, maxCycles, graceUsed)
         == Prepend(run, turn.spendsGrace,
                    ContinueFrom(env, turn.next, n + 1, maxCycles, graceUsed || turn.spendsGrace))
      && ForegroundFrom(env, run, n, budget) == Prepend(run, false, ForegroundFrom(env, turn.next, n + 1, budget - 1))
  {
    assert !env.ioFails(n, ConfigBefore);
    ContinueProceedsWithin(env, run, n, maxCycles, graceUsed);
    TurnsCorrespond(env, run, n, maxCycles, graceUsed);
  }

  lemma AgreeAlongCons(env: Environment, n: int, run: Run, rest: seq<Run>)
    requires DecidersAgree(env.cycle(n, run), run)
    ensures AgreeAlong(env, n, [run] + rest) <==> AgreeAlong(env, n + 1, rest)
  {
    var all := [run] + rest;
    if AgreeAlong(env, n, all) {
      AgreeAlongTail(env, n, all);
      assert all[1..] == rest;
    }
    if AgreeAlong(env, n + 1, rest) {
      forall i | 0 <= i < |all| ensures DecidersAgree(env.cycle(n + i, all[i]), all[i]) {
        if i > 0 {
          assert DecidersAgree(env.cycle(n + 1 + (i - 1), rest[i - 1]), rest[i - 1]);
        }
      }
    }
  }

  lemma SimulatedPrependExactly(run: Run, spent: bool, c: Trace, f: Trace)
    ensures Simulated(Prepend(run, spent, c), Prepend(run, false, f)) <==> Simulated(c, f)
  {
    assert ([run] + c.passed)[1..] == c.passed && ([run] + f.passed)[1..] == f.passed;
  }

  lemma LeavingAgrees(env: Environment, run: Run, n: int, maxCycles: int, graceUsed: bool)
    requires Calm(env) && DecidersAgree(env.cycle(n, run), run)
    requires ContinueTurn(env, run, n, maxCycles, graceUsed).Leaves?
    ensures AgreeAlong(env, n, ContinueFrom(env, run, n, maxCycles, graceUsed).passed)
  {
    assert !env.ioFails(n, ConfigBefore);
    AgreeAlongCons(env, n, run, []);
    assert [run] + [] == [run];
  }

  lemma FirstAgrees(env: Environment, run: Run, n: int, maxCycles: int, graceUsed: bool)
    requires Calm(env) && AgreeAlong(env, n, ContinueFrom(env, run, n, maxCycles, graceUsed).passed)
    ensures DecidersAgree(env.cycle(n, run), run)
  {
    assert !env.ioFails(n, ConfigBefore);
    AgreeAlongTail(env, n, ContinueFrom(env, run, n, maxCycles, graceUsed).passed);
  }

  /** Where the deciders disagree the loops part at once: one stops for the human, and the other
      goes on or stops at its limit. */
  lemma DisagreementParts(env: Environment, run: Run, n: int, maxCycles: int, graceUsed: bool)
    requires Calm(env) && !DecidersAgree(env.cycle(n, run), run)
    ensures var c := ContinueTurn(env, run, n, maxCycles, graceUsed); var f := ForegroundTurn(env, run, n);
      || (c.Leaves? && c.exit.Stopped? && c.exit.reason == PlannerAskHuman && f.Proceeds?)
      || (f.Leaves? && (c.Proceeds? || (c.exit.Stopped? && c.exit.reason == MaxCyclesReached)))
  {
    assert !env.ioFails(n, ConfigAfter) && !env.ioFails(n, Report) && !env.ioFails(n, CycleJournal);
    assert !env.ioFails(n, SaveReason) && !env.ioFails(n, StopJournal) && !env.ioFails(n, WaitingJournal);
    assert env.flag(n) == Absent;
  }

  lemma ContinueRunsOn(env: Environment, run: Run, n: int, maxCycles: int, graceUsed: bool)
    requires Calm(env)
    ensures |ContinueFrom(env, run, n, maxCycles, graceUsed).passed| > 0
  {
    assert !env.ioFails(n, ConfigBefore);
  }

  lemma DisagreementIsSeen(env: Environment, run: Run, n: int, maxCycles: int, graceUsed: bool, budget: nat)
    requires Calm(env) && budget > |ContinueFrom(env, run, n, maxCycles, graceUsed).passed|
    requires !DecidersAgree(env.cycle(n, run), run)
    ensures !Simulated(ContinueFrom(env, run, n, maxCycles, graceUsed), ForegroundFrom(env, run, n, budget))
  {
    assert !env.ioFails(n, ConfigBefore);
    DisagreementParts(env, run, n, maxCycles, graceUsed);
    var c, f := ContinueTurn(env, run, n, maxCycles, graceUsed), ForegroundTurn(env, run, n);
    if f.Proceeds? {
      ForegroundRunsOn(env, f.next, n + 1, budget - 1);
    } else if c.Proceeds? {
      ContinueProceedsWithin(env, run, n, maxCycles, graceUsed);
      ContinueRunsOn(env, c.next, n + 1, maxCycles, graceUsed || c.spendsGrace);
    }
  }

  lemma DisagreeingCase(env: Environment, run: Run, n: int, maxCycles: int, graceUsed: bool, budget: nat)
    requires Calm(env) && budget > |ContinueFrom(env, run, n, maxCycles, graceUsed).passed|
    requires !DecidersAgree(env.cycle(n, run), run)
    ensures !Simulated(ContinueFrom(env, run, n, maxCycles, graceUsed), ForegroundFrom(env, run, n, budget))
    ensures !AgreeAlong(env, n, ContinueFrom(env, run, n, maxCycles, graceUsed).passed)
  {
    DisagreementIsSeen(env, run, n, maxCycles, graceUsed, budget);
    if AgreeAlong(env, n, ContinueFrom(env, run, n, maxCycles, graceUsed).passed) {
      FirstAgrees(env, run, n, maxCycles, graceUsed);
    }
  }

  /** From cycle `n` on, simulation is agreement of the deciders along the bounded loop. */
  lemma {:induction false} SimulatedIffAgreeing(
    env: Environment, run: Run, n: int, maxCycles: int, graceUsed: bool, budget: nat, c: Trace, f: Trace)
    requires c == ContinueFrom(env, run, n, maxCycles, graceUsed) && f == ForegroundFrom(env, run, n, budget)
    requires Calm(env) && budget > |c.passed|
    ensures Simulated(c, f) <==> AgreeAlong(env, n, c.passed)
    decreases if graceUsed then 0 else 1, maxCycles - n
  {
    ContinueRunsOn(env, run, n, maxCycles, graceUsed);
    if !DecidersAgree(env.cycle(n, run), run) {
      DisagreeingCase(env, run, n, maxCycles, graceUsed, budget);
    } else if ContinueTurn(env, run, n, maxCycles, graceUsed).Leaves? {
      StopIsSimulated(env, run, n, maxCycles, graceUsed, budget);
      LeavingAgrees(env, run, n, maxCycles, graceUsed);
    } else {
      var turn := ContinueTurn(env, run, n, maxCycles, graceUsed);
      var c' := ContinueFrom(env, turn.next, n + 1, maxCycles, graceUsed || turn.spendsGrace);
      var f' := ForegroundFrom(env, turn.next, n + 1, budget - 1);
      BothUnroll(env, run, n, maxCycles, graceUsed, budget);
      assert |c.passed| == |c'.passed| + 1;
      SimulatedIffAgreeing(env, turn.next, n + 1, maxCycles, graceUsed || turn.spendsGrace, budget - 1, c', f');
      SimulatedPrependExactly(run, turn.spendsGrace, c', f');
      AgreeAlongCons(env, n, run, c'.passed);
    }
  }

  /** For every cycle function, with no stop flag and no failing call, the bounded loop is
      simulated by the unbounded one if and only if the deciders agree on every cycle the bounded
      loop runs.  Simulated: it hands the cycle runner a prefix of what the unbounded loop hands
      it; a stop for any reason but the limit is the same stop at the same cycle; at a limit stop
      the unbounded loop goes on. */
  lemma ContinueIsPrefixExactly(env: Environment, run: Run, maxCycles: int, budget: nat)
    requires Calm(env) && budget > |ContinueTrace(env, run, maxCycles).passed|
    ensures Simulated(ContinueTrace(env, run, maxCycles), ForegroundTrace(env, run, budget))
      <==> AgreeAlong(env, 1, ContinueTrace(env, run, maxCycles).passed)
  {
    assert !env.ioFails(0, StartJournal);
    SimulatedIffAgreeing(env, run, 1, maxCycles, false, budget,
      ContinueTrace(env, run, maxCycles), ForegroundTrace(env, run, budget));
  }

  lemma {:induction false} ForegroundFromSimulated(env: Environment, run: Run, n: int, maxCycles: int, budget: nat)
    requires Calm(env)
    requires var f := ForegroundFrom(env, run, n, budget);
      f.exit.Stopped? && n - 1 + |f.passed| <= maxCycles && AgreeAlong(env, n, f.passed)
    ensures ContinueFrom(env, run, n, maxCycles, false) == ForegroundFrom(env, run, n, budget)
    decreases budget
  {
    var f := ForegroundFrom(env, run, n, budget);
    assert !env.ioFails(n, ConfigBefore);
    AgreeAlongTail(env, n, f.passed);
    TurnsCorrespond(env, run, n, maxCycles, false);
    match ForegroundTurn(env, run, n)
    case Leaves(_, _) =>
    case Proceeds(next, _) =>
      var rest := ForegroundFrom(env, next, n + 1, budget - 1);
      assert f.passed[1..] == rest.passed;
      ForegroundFromSimulated(env, next, n + 1, maxCycles, budget - 1);
  }

  /** The other direction: whatever stops the unbounded loop within the limit stops the
      bounded loop in the same way. */
  lemma ForegroundStopWithinLimitIsContinueStop(env: Environment, run: Run, maxCycles: int, budget: nat)
    requires Calm(env)
    requires var f := ForegroundTrace(env, run, budget);
      f.exit.Stopped? && |f.passed| <= maxCycles && AgreeAlong(env, 1, f.passed)
    ensures ContinueTrace(env, run, maxCycles) == ForegroundTrace(env, run, budget)
  {
    ForegroundFromSimulated(env, run, 1, maxCycles, budget);
  }

  /** Without the agreement the loops part: a planner that asks the human on its second turn
      stops the foreground loop at once and leaves the bounded loop running to its limit. */
  lemma DisagreementSeparatesTheLoops() returns (env: Environment, run: Run)
    ensures Calm(env)
    ensures forall budget: nat | budget > 0 :: var f := ForegroundTrace(env, run, budget);
      |f.passed| == 1 && f.exit.Stopped? && f.exit.reason == PlannerAskHuman
    ensures var c := ContinueTrace(env, run, 2); |c.passed| == 2 && c.exit.Stopped? && c.exit.reason == MaxCyclesReached
  {
    run := Run("run_1", Initialized, NoReason, NoReason, None, 0, "");
    var result := CycleResult(run, PlannerTurn(Pause, false), None, Some(PlannerTurn(AskHuman, false)), false);
    env := Environment((n: int, r: Run) => CycleReturn(result, false),
      (n: int, p: IoPoint) => false, (n: int) => Absent);
    assert ForegroundTurn(env, run, 1).Leaves?;
    assert ContinueTurn(env, run, 1, 2, false) == Proceeds(run, false);
    assert ContinueTurn(env, run, 2, 2, false).Leaves?;
    assert |ContinueFrom(env, run, 2, 2, false).passed| == 1;
  }

  // ----- the stop flag and the recorded reason -----

  /** A larger observation window only shows more of the same run. */
  lemma {:induction false} ForegroundWindowIsMonotone(env: Environment, run: Run, n: int, budget: nat, more: nat)
    requires budget <= more
    ensures ForegroundFrom(env, run, n, budget).passed <= ForegroundFrom(env, run, n, more).passed
    ensures !ForegroundFrom(env, run, n, budget).exit.StillRunning? ==>
      ForegroundFrom(env, run, n, budget) == ForegroundFrom(env, run, n, more)
    decreases budget
  {
    if budget > 0 && !env.ioFails(n, ConfigBefore) {
      match ForegroundTurn(env, run, n)
      case Leaves(_, _) =>
      case Proceeds(next, _) => ForegroundWindowIsMonotone(env, next, n + 1, budget - 1, more - 1);
    }
  }

  lemma FlaggedTurnLeaves(env: Environment, run: Run, n: int)
    requires env.flag(n) == Present
    ensures ForegroundTurn(env, run, n).Leaves? && !ForegroundTurn(env, run, n).exit.StillRunning?
  {
  }

  /** The k-th cycle of an invocation that saw the flag at its boundary is its last, whatever
      else the cycle did and whichever calls fail. */
  lemma {:induction false} FlagEndsTheInvocation(env: Environment, run: Run, n: int, budget: nat, k: nat)
    requires k < |ForegroundFrom(env, run, n, budget).passed|
    requires env.flag(n + k) == Present
    ensures |ForegroundFrom(env, run, n, budget).passed| == k + 1
    ensures !ForegroundFrom(env, run, n, budget).exit.StillRunning?
    decreases k
  {
    if k == 0 {
      FlaggedTurnLeaves(env, run, n);
    } else {
      var next := ForegroundTurn(env, run, n).next;
      assert n + k == n + 1 + (k - 1);
      FlagEndsTheInvocation(env, next, n + 1, budget - 1, k - 1);
    }
  }

  lemma OperatorStopTurn(env: Environment, run: Run, n: int)
    requires var t := ForegroundTurn(env, run, n);
      t.Leaves? && t.exit.Stopped? && t.exit.reason == OperatorStopRequested
    ensures env.flag(n) == Present
  {
  }

  /** An operator stop is reported only for a flag seen at the boundary of the last cycle. */
  ghost predicate FlagAtTheEnd(env: Environment, n: int, f: Trace) {
    f.exit.Stopped? && f.exit.reason == OperatorStopRequested ==>
      f.passed != [] && env.flag(n + |f.passed| - 1) == Present
  }

  lemma FlagAtTheEndPrepend(env: Environment, n: int, run: Run, f: Trace)
    requires FlagAtTheEnd(env, n + 1, f)
    ensures FlagAtTheEnd(env, n, Prepend(run, false, f))
  {
    assert n + 1 + |f.passed| - 1 == n + |Prepend(run, false, f).passed| - 1;
  }

  lemma {:induction false} OperatorStopNeedsTheFlag(env: Environment, run: Run, n: int, budget: nat)
    ensures FlagAtTheEnd(env, n, ForegroundFrom(env, run, n, budget))
    decreases budget
  {
    if budget > 0 && !env.ioFails(n, ConfigBefore) {
      match ForegroundTurn(env, run, n)
      case Leaves(_, exit) =>
        if exit.Stopped? && exit.reason == OperatorStopRequested {
          OperatorStopTurn(env, run, n);
        }
      case Proceeds(next, _) =>
        OperatorStopNeedsTheFlag(env, next, n + 1, budget - 1);
        FlagAtTheEndPrepend(env, n, run, ForegroundFrom(env, next, n + 1, budget - 1));
    }
  }

  /** A clean stop has a reason, the run it returns carries that reason, and the store was
      written at most once: with exactly that reason, and only if the run lacked it. */
  predicate StopIsRecorded(t: Trace) {
    && |t.saved| <= 1
    && (t.exit.Stopped? ==>
         && t.exit.reason != NoReason
         && t.exit.run.latestStopReason == t.exit.reason
         && (t.saved == [] || t.saved == [(t.exit.run.id, t.exit.reason)]))
    && (t.exit.StillRunning? ==> t.saved == [])
  }

  lemma {:induction false} ContinueRecordsItsStop(env: Environment, run: Run, n: int, maxCycles: int, graceUsed: bool)
    ensures StopIsRecorded(ContinueFrom(env, run, n, maxCycles, graceUsed))
    decreases if graceUsed then 0 else 1, maxCycles - n
  {
    if !env.ioFails(n, ConfigBefore) {
      match ContinueTurn(env, run, n, maxCycles, graceUsed)
      case Leaves(_, _) =>
      case Proceeds(next, spends) => ContinueRecordsItsStop(env, next, n + 1, maxCycles, graceUsed || spends);
    }
  }

  lemma {:induction false} ForegroundRecordsItsStop(env: Environment, run: Run, n: int, budget: nat)
    ensures StopIsRecorded(ForegroundFrom(env, run, n, budget))
    decreases budget
  {
    if budget > 0 && !env.ioFails(n, ConfigBefore) {
      match ForegroundTurn(env, run, n)
      case Leaves(_, _) =>
      case Proceeds(next, _) => ForegroundRecordsItsStop(env, next, n + 1, budget - 1);
    }
  }
}
