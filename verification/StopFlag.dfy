/** The stop-flag file while an operator sets and clears it at any time and any number of invocations
    of the run loops, in one process or several, come and go.  The boundary check is two file
    operations (stat, then remove), so the operator and the other invocations can act between them
    too.  Disabled actions change nothing. */
module StopFlag {
  import opened Text
  import opened RunLoops
  import opened RunStops

  datatype Phase =
    | AtBoundary                      // a cycle may start
    | InCycle
    | Checking                        // the cycle has returned, the flag is about to be looked at
    | FlagSeen                        // stat found the flag, removal comes next
    | Deciding(stopRequested: bool)   // the stop reason is about to be computed
    | Over

  datatype Mark = CycleStarted | CycleEnded | SawFlag | Consumed | Missed | Left

  /** One invocation, from its first boundary on, with what it has done. */
  datatype Invocation = Invocation(phase: Phase, log: seq<Mark>)

  /** `raised` counts the times the file came into being, and `cleared` the times the operator
      removed it. */
  datatype State = State(present: bool, invocations: map<nat, Invocation>, raised: nat, cleared: nat)

  datatype Action =
    | OperatorSets
    | OperatorClears
    | Begin(i: nat)
    | StartCycle(i: nat)
    | CycleReturns(i: nat)
    | Stat(i: nat)
    | Remove(i: nat, succeeds: bool)
    | Decide(i: nat, result: CycleResult, run: Run, failed: bool)
    | CallFails(i: nat)               // a journal, report, store or configuration call, or the stat, fails

  const START := State(false, map[], 0, 0)

  predicate ByOperator(a: Action) {
    a.OperatorSets? || a.OperatorClears?
  }

  function Goes(v: Invocation, phase: Phase, m: Mark): Invocation {
    Invocation(phase, v.log + [m])
  }

  /** What an invocation's own action makes of it, when the flag is or is not there. */
  function Moved(v: Invocation, present: bool, a: Action): Invocation {
    match a
    case StartCycle(_) => if v.phase.AtBoundary? then Goes(v, InCycle, CycleStarted) else v
    case CycleReturns(_) => if v.phase.InCycle? then Goes(v, Checking, CycleEnded) else v
    case Stat(_) =>
      if !v.phase.Checking? then v
      else if present then Goes(v, FlagSeen, SawFlag)
      else v.(phase := Deciding(false))
    case Remove(_, succeeds) =>
      if !v.phase.FlagSeen? then v
      else if present && succeeds then Goes(v, Deciding(true), Consumed)
      else Goes(v, Over, Missed)      // the invocation returns the error
    case Decide(_, result, run, failed) =>
      if !v.phase.Deciding? then v
      else if DetermineForegroundStopReason(result, run, failed, v.phase.stopRequested) != NoReason then
        Goes(v, Over, Left)
      else v.(phase := AtBoundary)
    case CallFails(_) =>
      if v.phase.AtBoundary? || v.phase.Checking? || v.phase.Deciding? then Goes(v, Over, Left) else v
    case _ => v
  }

  predicate Removes(s: State, a: Action) {
    a.Remove? && a.i in s.invocations && s.invocations[a.i].phase.FlagSeen? && s.present && a.succeeds
  }

  function Step(s: State, a: Action): State {
    match a
    case OperatorSets =>
      if s.present then s else s.(present := true, raised := s.raised + 1)
    case OperatorClears =>
      if s.present then s.(present := false, cleared := s.cleared + 1) else s
    case Begin(i) =>
      if i in s.invocations then s else s.(invocations := s.invocations[i := Invocation(AtBoundary, [])])
    case _ =>
      if a.i !in s.invocations then s
      else s.(invocations := s.invocations[a.i := Moved(s.invocations[a.i], s.present, a)],
              present := s.present && !Removes(s, a))
  }

  function After(actions: seq<Action>): State {
    if actions == [] then START else Step(After(actions[..|actions| - 1]), actions[|actions| - 1])
  }

  // ----- what the steps do -----

  /** A decision lets the invocation go on exactly when nothing ends it. */
  predicate GoesOn(result: CycleResult, run: Run, failed: bool, stopRequested: bool) {
    !(Waits(run) || failed || run.status == Completed || LastAsks(result) || stopRequested)
  }

  lemma DecisionReads(result: CycleResult, run: Run, failed: bool, stopRequested: bool)
    ensures DetermineForegroundStopReason(result, run, failed, stopRequested) == NoReason
      <==> GoesOn(result, run, failed, stopRequested)
  {
  }

  /** One action moves an invocation on by one phase; any other leaves it. */
  lemma MovesRead(v: Invocation, present: bool, a: Action)
    ensures var t := Moved(v, present, a);
      match v.phase
      case AtBoundary =>
        t == if a.StartCycle? then Invocation(InCycle, v.log + [CycleStarted])
             else if a.CallFails? then Invocation(Over, v.log + [Left])
             else v
      case InCycle => t == if a.CycleReturns? then Invocation(Checking, v.log + [CycleEnded]) else v
      case Checking =>
        t == if a.Stat? && present then Invocation(FlagSeen, v.log + [SawFlag])
             else if a.Stat? then Invocation(Deciding(false), v.log)
             else if a.CallFails? then Invocation(Over, v.log + [Left])
             else v
      case FlagSeen =>
        t == if a.Remove? && present && a.succeeds then Invocation(Deciding(true), v.log + [Consumed])
             else if a.Remove? then Invocation(Over, v.log + [Missed])
             else v
      case Deciding(stopRequested) =>
        t == if a.Decide? && GoesOn(a.result, a.run, a.failed, stopRequested) then Invocation(AtBoundary, v.log)
             else if a.Decide? || a.CallFails? then Invocation(Over, v.log + [Left])
             else v
      case Over => t == v
  {
    if a.Decide? && v.phase.Deciding? {
      DecisionReads(a.result, a.run, a.failed, v.phase.stopRequested);
    }
  }

  /** The flag is there after a raising, gone after a clearing or a removal of one that was seen and
      is there, and otherwise as it was; a step of one invocation leaves the others. */
  lemma FlagAfterStep(s: State, a: Action)
    ensures var t := Step(s, a);
      && (a.OperatorSets? ==> t.present)
      && (a.OperatorClears? ==> !t.present)
      && (!ByOperator(a) ==>
            var removed := a.Remove? && a.succeeds && a.i in s.invocations && s.invocations[a.i].phase.FlagSeen?;
            t.present == (s.present && !removed))
      && (ByOperator(a) ==> t.invocations == s.invocations)
      && (a.Begin? ==> t.invocations == if a.i in s.invocations then s.invocations
                                        else s.invocations[a.i := Invocation(AtBoundary, [])])
      && (!ByOperator(a) && !a.Begin? && a.i in s.invocations ==>
            t.invocations == s.invocations[a.i := Moved(s.invocations[a.i], s.present, a)])
  {
  }

  // ----- what an invocation's log says -----

  function Count(log: seq<Mark>, m: Mark): nat {
    if log == [] then 0 else Count(log[..|log| - 1], m) + if log[|log| - 1] == m then 1 else 0
  }

  /** Once an invocation has seen the flag, it starts no cycle and sees no flag again. */
  ghost predicate NothingAfterFlag(log: seq<Mark>) {
    forall i, j :: 0 <= i < j < |log| && log[i] == SawFlag ==> log[j] !in {CycleStarted, CycleEnded, SawFlag}
  }

  /** A consumption or a miss directly follows the sighting. */
  ghost predicate RemovesWhatItSaw(log: seq<Mark>) {
    forall j :: 0 <= j < |log| && log[j] in {Consumed, Missed} ==> j > 0 && log[j - 1] == SawFlag
  }

  /** An invocation leaves only between cycles, and does nothing after that. */
  ghost predicate LeavesOnceBetweenCycles(log: seq<Mark>) {
    && (forall j :: 0 <= j < |log| && log[j] in {Left, Missed} ==>
          j == |log| - 1 && Count(log[..j], CycleStarted) == Count(log[..j], CycleEnded))
  }

  ghost predicate GoodLog(log: seq<Mark>) {
    NothingAfterFlag(log) && RemovesWhatItSaw(log) && LeavesOnceBetweenCycles(log)
  }

  /** How the phase and the log of one invocation agree. */
  predicate Consistent(v: Invocation) {
    && Count(v.log, CycleStarted) == Count(v.log, CycleEnded) + (if v.phase.InCycle? then 1 else 0)
    && (v.phase.Over? <==> v.log != [] && v.log[|v.log| - 1] in {Left, Missed})
    && (v.phase.FlagSeen? <==> v.log != [] && v.log[|v.log| - 1] == SawFlag)
    && (SawFlag in v.log ==> v.phase in {FlagSeen, Deciding(true), Over})
    && (v.phase == Deciding(true) ==> Consumed in v.log)
    && (SawFlag in v.log <==> v.phase.FlagSeen? || Consumed in v.log || Missed in v.log)
    && !(Consumed in v.log && Missed in v.log)
    && (v.phase.FlagSeen? ==> Consumed !in v.log && Missed !in v.log)
  }

  ghost predicate Good(v: Invocation) {
    Consistent(v) && GoodLog(v.log)
  }

  // ----- one invocation -----

  lemma CountAppend(log: seq<Mark>, m: Mark, x: Mark)
    ensures Count(log + [m], x) == Count(log, x) + if m == x then 1 else 0
  {
    assert (log + [m])[..|log|] == log;
  }

  lemma AppendEnds(log: seq<Mark>, m: Mark)
    ensures (log + [m])[|log|] == m && (log + [m])[..|log|] == log
    ensures forall x :: x in log + [m] <==> x in log || x == m
  {
  }

  lemma NothingAfterAppend(log: seq<Mark>, m: Mark)
    requires NothingAfterFlag(log) && (m in {CycleStarted, CycleEnded, SawFlag} ==> SawFlag !in log)
    ensures NothingAfterFlag(log + [m])
  {
    assert forall j :: 0 <= j < |log| ==> log[j] in log && (log + [m])[j] == log[j];
  }

  lemma LeavesAppend(log: seq<Mark>, m: Mark)
    requires Left !in log && Missed !in log
    requires m in {Left, Missed} ==> Count(log, CycleStarted) == Count(log, CycleEnded)
    ensures LeavesOnceBetweenCycles(log + [m])
  {
    assert forall j :: 0 <= j < |log| ==> log[j] in log && (log + [m])[j] == log[j];
    assert (log + [m])[..|log|] == log;
  }

  lemma RemovesAppend(log: seq<Mark>, m: Mark)
    requires RemovesWhatItSaw(log) && (m in {Consumed, Missed} ==> log != [] && log[|log| - 1] == SawFlag)
    ensures RemovesWhatItSaw(log + [m])
  {
  }

  lemma GoodLogAppend(log: seq<Mark>, m: Mark)
    requires GoodLog(log) && Left !in log && Missed !in log
    requires m in {CycleStarted, CycleEnded, SawFlag} ==> SawFlag !in log
    requires m in {Consumed, Missed} ==> log != [] && log[|log| - 1] == SawFlag
    requires m in {Left, Missed} ==> Count(log, CycleStarted) == Count(log, CycleEnded)
    ensures GoodLog(log + [m])
  {
    NothingAfterAppend(log, m);
    LeavesAppend(log, m);
    RemovesAppend(log, m);
  }

  /** A seen flag always ends the invocation: the decider never answers "go on" to it. */
  lemma StopRequestIsHonoured(result: CycleResult, run: Run, failed: bool)
    ensures DetermineForegroundStopReason(result, run, failed, true) != NoReason
  {
  }

  /** An invocation that is not over has neither left nor missed. */
  lemma NotOverNotLeft(v: Invocation)
    requires Good(v) && !v.phase.Over?
    ensures Left !in v.log && Missed !in v.log
  {
    forall j | 0 <= j < |v.log| ensures v.log[j] !in {Left, Missed} {}
  }

  lemma MoveIsConsistent(v: Invocation, phase: Phase, m: Mark)
    requires Good(v) && Legal(v, phase, m)
    ensures Good(Goes(v, phase, m))
  {
    NotOverNotLeft(v);
    AppendEnds(v.log, m);
    CountAppend(v.log, m, CycleStarted);
    CountAppend(v.log, m, CycleEnded);
    GoodLogAppend(v.log, m);
  }

  /** The marks and the phases they lead from and to. */
  predicate Legal(v: Invocation, phase: Phase, m: Mark) {
    match m
    case CycleStarted => v.phase.AtBoundary? && phase.InCycle?
    case CycleEnded => v.phase.InCycle? && phase.Checking?
    case SawFlag => v.phase.Checking? && phase.FlagSeen?
    case Consumed => v.phase.FlagSeen? && phase == Deciding(true)
    case Missed => v.phase.FlagSeen? && phase.Over?
    case Left => (v.phase.AtBoundary? || v.phase.Checking? || v.phase.Deciding?) && phase.Over?
  }

  lemma PhaseOnly(v: Invocation, phase: Phase)
    requires Good(v)
    requires (v.phase.Checking? && phase == Deciding(false)) || (v.phase == Deciding(false) && phase.AtBoundary?)
    ensures Good(v.(phase := phase))
  {
  }

  lemma MovedIsGood(v: Invocation, present: bool, a: Action)
    requires Good(v)
    ensures Good(Moved(v, present, a))
  {
    if a.Decide? {
      StopRequestIsHonoured(a.result, a.run, a.failed);
    }
    var t := Moved(v, present, a);
    if t != v {
      if t.log == v.log {
        PhaseOnly(v, t.phase);
      } else {
        MoveIsConsistent(v, t.phase, t.log[|v.log|]);
      }
    }
  }

  // ----- all of them -----

  /** Who has seen the flag, and what became of it. */
  function With(s: State, m: Mark): set<nat> {
    set i | i in s.invocations && m in s.invocations[i].log
  }

  function Removing(s: State): set<nat> {
    set i | i in s.invocations && s.invocations[i].phase.FlagSeen?
  }

  ghost predicate AllGood(s: State) {
    forall i :: i in s.invocations ==> Good(s.invocations[i])
  }

  /** Every raising is accounted for. */
  predicate Accounted(s: State) {
    s.raised == |With(s, Consumed)| + s.cleared + (if s.present then 1 else 0)
  }

  ghost predicate Inv(s: State) {
    AllGood(s) && Accounted(s)
  }

  lemma FreshIsGood()
    ensures Good(Invocation(AtBoundary, []))
  {
  }

  /** A move changes who has consumed only by the removal that works. */
  lemma MoveConsumes(v: Invocation, present: bool, a: Action)
    requires Good(v)
    ensures var t := Moved(v, present, a); var removes := a.Remove? && v.phase.FlagSeen? && present && a.succeeds;
      && (Consumed in t.log <==> Consumed in v.log || removes)
      && (removes ==> Consumed !in v.log)
  {
    var t := Moved(v, present, a);
    if t.log != v.log {
      AppendEnds(v.log, t.log[|v.log|]);
    }
  }

  lemma WithUpdate(s: State, t: State, i: nat, v: Invocation, m: Mark)
    requires t.invocations == s.invocations[i := v]
    ensures With(t, m) == if m in v.log then With(s, m) + {i} else With(s, m) - {i}
  {
  }

  lemma OperatorKeepsInv(s: State, a: Action)
    requires Inv(s) && ByOperator(a)
    ensures Inv(Step(s, a))
  {
    assert With(Step(s, a), Consumed) == With(s, Consumed);
  }

  lemma BeginKeepsAccount(s: State, i: nat)
    requires Accounted(s) && i !in s.invocations
    ensures Accounted(Step(s, Begin(i)))
  {
    WithUpdate(s, Step(s, Begin(i)), i, Invocation(AtBoundary, []), Consumed);
    assert With(s, Consumed) - {i} == With(s, Consumed);
  }

  lemma BeginKeepsInv(s: State, i: nat)
    requires Inv(s)
    ensures Inv(Step(s, Begin(i)))
  {
    if i !in s.invocations {
      FreshIsGood();
      BeginKeepsAccount(s, i);
    }
  }

  lemma OwnStep(s: State, a: Action)
    requires !ByOperator(a) && !a.Begin? && a.i in s.invocations
    ensures var t := Step(s, a);
      && t.invocations == s.invocations[a.i := Moved(s.invocations[a.i], s.present, a)]
      && t.present == (s.present && !Removes(s, a)) && t.raised == s.raised && t.cleared == s.cleared
  {
  }

  lemma MoveKeepsAccount(s: State, t: State, i: nat, moved: Invocation, removes: bool)
    requires Accounted(s) && i in s.invocations && t.invocations == s.invocations[i := moved]
    requires t.raised == s.raised && t.cleared == s.cleared && t.present == (s.present && !removes)
    requires removes ==> s.present && Consumed !in s.invocations[i].log
    requires Consumed in moved.log <==> Consumed in s.invocations[i].log || removes
    ensures Accounted(t)
  {
    WithUpdate(s, t, i, moved, Consumed);
    if Consumed in s.invocations[i].log {
      assert With(s, Consumed) + {i} == With(s, Consumed);
    } else {
      assert With(s, Consumed) - {i} == With(s, Consumed);
    }
  }

  lemma MoveKeepsInv(s: State, a: Action)
    requires Inv(s) && !ByOperator(a) && !a.Begin? && a.i in s.invocations
    ensures Inv(Step(s, a))
  {
    var v := s.invocations[a.i];
    OwnStep(s, a);
    MovedIsGood(v, s.present, a);
    MoveConsumes(v, s.present, a);
    MoveKeepsAccount(s, Step(s, a), a.i, Moved(v, s.present, a), Removes(s, a));
    GoodStays(s, Step(s, a), a.i);
  }

  lemma GoodStays(s: State, t: State, i: nat)
    requires AllGood(s) && i in t.invocations && Good(t.invocations[i])
    requires forall k :: k in t.invocations && k != i ==> k in s.invocations && t.invocations[k] == s.invocations[k]
    ensures AllGood(t)
  {
  }

  lemma StepKeepsInv(s: State, a: Action)
    requires Inv(s)
    ensures Inv(Step(s, a))
  {
    if ByOperator(a) {
      OperatorKeepsInv(s, a);
    } else if a.Begin? {
      BeginKeepsInv(s, a.i);
    } else if a.i in s.invocations {
      MoveKeepsInv(s, a);
    }
  }

  lemma {:induction false} AfterKeepsInv(actions: seq<Action>)
    ensures Inv(After(actions))
  {
    if actions != [] {
      AfterKeepsInv(actions[..|actions| - 1]);
      StepKeepsInv(After(actions[..|actions| - 1]), actions[|actions| - 1]);
    } else {
      assert With(START, Consumed) == {};
    }
  }

  // ----- the theorems -----

  /** Whatever the operator and however many invocations do, and whenever: every raising of the flag
      is accounted for once (consumed by one invocation, cleared by the operator, or still there);
      every invocation that has seen the flag has consumed it, or has missed it, or is about to try,
      and only one of these; having seen it, it starts no further cycle; and invocations leave only
      between cycles. */
  lemma StopFlagIsSafe(actions: seq<Action>)
    ensures var s := After(actions);
      && s.raised == |With(s, Consumed)| + s.cleared + (if s.present then 1 else 0)
      && With(s, SawFlag) == With(s, Consumed) + With(s, Missed) + Removing(s)
      && With(s, Consumed) !! With(s, Missed) !! Removing(s)
      && (forall i :: i in s.invocations ==> GoodLog(s.invocations[i].log))
  {
    AfterKeepsInv(actions);
    SightingsAreSettled(After(actions));
  }

  lemma SightingsAreSettled(s: State)
    requires AllGood(s)
    ensures With(s, SawFlag) == With(s, Consumed) + With(s, Missed) + Removing(s)
    ensures With(s, Consumed) !! With(s, Missed) !! Removing(s)
    ensures forall i :: i in s.invocations ==> GoodLog(s.invocations[i].log)
  {
    forall i | i in s.invocations ensures Consistent(s.invocations[i]) && GoodLog(s.invocations[i].log) {
      assert Good(s.invocations[i]);
    }
  }

  /** What becomes of a flag that an invocation has seen, whatever others do in between.  A removal
      that finds it and works consumes it, and the invocation ends with its next decision.  A removal
      that fails, because somebody was faster or for any other reason, ends the invocation at once
      and leaves the file as it is. */
  lemma SeenFlagIsConsumedOrMissed(s: State, i: nat, succeeds: bool, result: CycleResult, run: Run, failed: bool)
    requires i in s.invocations && s.invocations[i].phase.FlagSeen?
    ensures var gone := Step(s, Remove(i, succeeds)); var ended := Step(gone, Decide(i, result, run, failed));
      && (s.present && succeeds ==>
            !gone.present && gone.invocations[i] == Goes(s.invocations[i], Deciding(true), Consumed)
            && ended.invocations[i].phase.Over?)
      && (!(s.present && succeeds) ==>
            gone.present == s.present && gone.invocations[i] == Goes(s.invocations[i], Over, Missed))
  {
    StopRequestIsHonoured(result, run, failed);
  }

  lemma AfterAppend(actions: seq<Action>, a: Action)
    ensures After(actions + [a]) == Step(After(actions), a)
  {
    assert (actions + [a])[..|actions|] == actions;
  }

  /** Two invocations at their boundaries can both see one raising: it ends both, one of them with an
      error, although both removals would work. */
  lemma OneRaisingEndsTwo(s: State, i: nat, j: nat)
    requires s.present && i != j && i in s.invocations && j in s.invocations
    requires s.invocations[i].phase.Checking? && s.invocations[j].phase.Checking?
    ensures var t := Step(Step(Step(Step(s, Stat(i)), Stat(j)), Remove(i, true)), Remove(j, true));
      && t.raised == s.raised && !t.present
      && t.invocations[i].phase == Deciding(true) && t.invocations[j].phase.Over?
      && t.invocations[j].log == s.invocations[j].log + [SawFlag] + [Missed]
  {
  }

  /** An invocation that runs one cycle, sees the flag and fails to remove it. */
  function Missing(i: nat): seq<Action> {
    [Begin(i), StartCycle(i), CycleReturns(i), Stat(i), Remove(i, false)]
  }

  lemma MissedInvocation(actions: seq<Action>, i: nat)
    requires After(actions).present && i !in After(actions).invocations
    ensures var s, t := After(actions), After(actions + Missing(i));
      && t.present && t.raised == s.raised && t.invocations.Keys == s.invocations.Keys + {i}
      && t.invocations[i] == Invocation(Over, [CycleStarted, CycleEnded, SawFlag, Missed])
      && (forall k :: k in s.invocations ==> t.invocations[k] == s.invocations[k])
  {
    var a := actions + [Begin(i)];
    var b := a + [StartCycle(i)];
    var c := b + [CycleReturns(i)];
    AfterAppend(actions, Begin(i));
    AfterAppend(a, StartCycle(i));
    AfterAppend(b, CycleReturns(i));
    AfterAppend(c, Stat(i));
    AfterAppend(c + [Stat(i)], Remove(i, false));
    assert c + [Stat(i)] + [Remove(i, false)] == actions + Missing(i);
    assert [] + [CycleStarted] + [CycleEnded] + [SawFlag] + [Missed] == [CycleStarted, CycleEnded, SawFlag, Missed];
  }

  /** One raising can end any number of invocations: as many as fail to remove the file. */
  lemma {:induction false} OneRaisingEndsMany(actions: seq<Action>, first: nat, n: nat) returns (more: seq<Action>)
    requires After(actions).present && forall i :: i in After(actions).invocations ==> i < first
    ensures actions <= more
    ensures var s, t := After(actions), After(more);
      && t.present && t.raised == s.raised && (forall i :: i in t.invocations ==> i < first + n)
      && forall i :: first <= i < first + n ==>
           i in t.invocations && t.invocations[i] == Invocation(Over, [CycleStarted, CycleEnded, SawFlag, Missed])
  {
    more := actions;
    if n > 0 {
      more := OneRaisingEndsMany(actions, first, n - 1);
      MissedInvocation(more, first + n - 1);
      more := more + Missing(first + n - 1);
    }
  }

  // ----- the operations themselves -----

  /** What is at the flag's path. */
  datatype Entry = Nothing | Text(text: string) | Directory

  /** How a write goes: as asked, not at all, or the file is opened and left with some text. */
  datatype WriteOutcome = Written | NotOpened | Torn(text: string)

  const DEFAULT_REASON := "operator_requested_safe_stop"

  function Reason(why: string): (reason: string)
    ensures reason != "" && Trimmed(reason)
  {
    if Blank(why) then DEFAULT_REASON else TrimSpace(why)
  }

  /** The reason that is written down. */
  lemma ReasonReads(why: string)
    ensures TrimSpace(why) == "" ==> Reason(why) == "operator_requested_safe_stop"
    ensures TrimSpace(why) != "" ==> Reason(why) == TrimSpace(why)
  {
  }

  lemma {:induction false} TrimOfLine(text: string)
    requires text != "" && Trimmed(text)
    ensures TrimSpace(text + "\n") == text
  {
    var line := text + "\n";
    assert line[0] == text[0] && line[..|line| - 1] == text;
  }

  predicate SeenBy(s: State, i: nat) {
    i in s.invocations && s.invocations[i].phase.FlagSeen?
  }

  /** The flag file as the operator's commands and the boundary check use it; `Agrees` ties
      each operation to the step of the same name. */
  class FlagFile {
    var entry: Entry

    /** From every state with this file, `a` leaves the file as it is now; a removal's invocation has
        just seen it. */
    twostate predicate Agrees(a: Action)
      reads this
    {
      forall s: State :: s.present == old(entry.Text?) && (a.Remove? ==> SeenBy(s, a.i)) ==>
        Step(s, a).present == entry.Text?
    }

    /** `setControlStopFlag`: raising a raised flag only replaces its reason.  A torn write is an
        error, and raises the flag all the same. */
    method Set(why: string, outcome: WriteOutcome) returns (ok: bool)
      modifies this
      ensures ok <==> outcome.Written? && !old(entry).Directory?
      ensures ok ==> entry == Text(Reason(why) + "\n")
      ensures !ok ==>
        entry == if outcome.Torn? && !old(entry).Directory? then Text(outcome.text) else old(entry)
      ensures ok || (outcome.Torn? && !old(entry).Directory?) ==> Agrees(OperatorSets)
    {
      var reason := why;
      if TrimSpace(reason) == "" {
        reason := DEFAULT_REASON;
      }
      if entry.Directory? || outcome.NotOpened? {
        return false;
      }
      if outcome.Torn? {
        entry := Text(outcome.text);
        return false;
      }
      entry := Text(TrimSpace(reason) + "\n");
      return true;
    }

    /** `clearControlStopFlag`: clearing an absent flag is not an error. */
    method Clear(removes: bool) returns (ok: bool)
      modifies this
      ensures ok <==> old(entry).Nothing? || removes
      ensures entry == if ok then Nothing else old(entry)
      ensures ok ==> Agrees(OperatorClears)
    {
      if !entry.Nothing? && !removes {
        return false;
      }
      entry := Nothing;
      return true;
    }

    /** `buildControlStopFlagSnapshot`: the reason, if a file can be read. */
    method Snapshot(readable: bool) returns (reason: Option<string>)
      ensures reason == if readable && entry.Text? then Some(TrimSpace(entry.text)) else None
    {
      if !readable || !entry.Text? {
        return None;
      }
      return Some(TrimSpace(entry.text));
    }

    /** `consumeAutoStopFlag` when nobody interferes between its two file operations; `None` is an
        error. */
    method Consume(i: nat, statFails: bool, removes: bool) returns (stopRequested: Option<bool>)
      modifies this
      ensures stopRequested == Some(true) <==> !statFails && old(entry).Text? && removes
      ensures stopRequested == Some(false) <==> !statFails && old(entry).Nothing?
      ensures entry == if stopRequested == Some(true) then Nothing else old(entry)
      ensures !statFails && old(entry).Text? ==> Agrees(Remove(i, removes))
    {
      if statFails {
        return None;
      }
      if entry.Nothing? {
        return Some(false);
      }
      if entry.Directory? || !removes {
        return None;
      }
      entry := Nothing;
      return Some(true);
    }
  }

  /** A flag that was raised reads back with its reason, trimmed, or the default one. */
  method SetThenSnapshot(flag: FlagFile, why: string) returns (reason: Option<string>)
    requires !flag.entry.Directory?
    modifies flag
    ensures reason == Some(Reason(why))
  {
    var ok := flag.Set(why, Written);
    TrimOfLine(Reason(why));
    reason := flag.Snapshot(true);
  }
}
