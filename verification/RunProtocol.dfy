/** The single-run protocol of the control server: `controlRunManager` (reserve, attach,
    finish), the active-run guard on disk, and stale-run recovery, across backend crashes.

    The manager is a class; the protocol is a transition system over any number of concurrent
    StartRun/ContinueRun calls, their background loops, crashes and restarts.  Recovery is one
    atomic step: the code drops the manager lock before it touches the guard. */
module RunProtocol {
  import opened Text

  // ----- the manager -----

  datatype Reservation = Reservation(runID: string, action: string, started: int, sessionID: string)

  const ZERO_TIME := 0

  /** `started` is a clock reading; readings need not be distinct. */
  datatype Manager = Manager(active: bool, activeID: string, action: string, started: int)

  const FREE_MANAGER := Manager(false, "", "", ZERO_TIME)

  /** The reservation the manager currently honours is the one with this action and start. */
  predicate Honours(m: Manager, r: Reservation) {
    m.active && m.action == r.action && m.started == r.started
  }

  function NewReservation(action: string, runID: string, now: int, sessionID: string): Reservation {
    Reservation(TrimSpace(runID), TrimSpace(action), now, sessionID)
  }

  function Occupied(r: Reservation): Manager {
    Manager(true, r.runID, r.action, r.started)
  }

  function AfterAttach(m: Manager, r: Reservation, runID: string): Manager {
    if Honours(m, r) then m.(activeID := TrimSpace(runID)) else m
  }

  function AfterFinish(m: Manager, r: Reservation): Manager {
    if Honours(m, r) then FREE_MANAGER else m
  }

  class ControlRunManager {
    var active: bool
    var activeID: string
    var action: string
    var started: int

    function View(): Manager
      reads this
    {
      Manager(active, activeID, action, started)
    }

    constructor ()
      ensures View() == FREE_MANAGER
    {
      active, activeID, action, started := false, "", "", ZERO_TIME;
    }

    /** Refuses while a run is active, and then changes nothing. */
    method Reserve(wanted: string, runID: string, now: int, sessionID: string) returns (r: Option<Reservation>)
      modifies this
      ensures old(active) ==> r == None && View() == old(View())
      ensures !old(active) ==>
        && r == Some(NewReservation(wanted, runID, now, sessionID))
        && View() == Occupied(r.value)
        && Honours(View(), r.value)
        && active && activeID == TrimSpace(runID) && action == TrimSpace(wanted) && started == now
        && r.value.runID == activeID && r.value.action == action && r.value.started == now
        && r.value.sessionID == sessionID
    {
      if active {
        return None;
      }
      var reservation := Reservation(TrimSpace(runID), TrimSpace(wanted), now, sessionID);
      active := true;
      activeID := reservation.runID;
      action := reservation.action;
      started := reservation.started;
      return Some(reservation);
    }

    method AttachRunID(r: Reservation, runID: string)
      modifies this`activeID
      ensures View() == AfterAttach(old(View()), r, runID)
      ensures activeID == if old(active) && old(action) == r.action && old(started) == r.started then TrimSpace(runID)
                          else old(activeID)
    {
      if !active || action != r.action || started != r.started {
        return;
      }
      activeID := TrimSpace(runID);
    }

    method Finish(r: Reservation)
      modifies this
      ensures View() == AfterFinish(old(View()), r)
      ensures if old(active) && old(action) == r.action && old(started) == r.started
              then !active && activeID == "" && action == "" && started == ZERO_TIME
              else View() == old(View())
    {
      if !active || action != r.action || started != r.started {
        return;
      }
      active := false;
      activeID := "";
      action := "";
      started := ZERO_TIME;
    }
  }

  // ----- the guard file -----

  datatype Backend = Backend(pid: int, startedAt: string)

  datatype GuardFile =
    | NoGuard
    | UnreadableGuard
    | Guard(sessionID: string, runID: string, action: string, backend: Backend)

  datatype GuardSnapshot = GuardSnapshot(present: bool, runID: string, currentBackend: bool, stale: bool)

  function BuildGuardSnapshot(guard: GuardFile, me: Backend): GuardSnapshot {
    match guard
    case UnreadableGuard => GuardSnapshot(true, "", false, true)
    case NoGuard => GuardSnapshot(false, "", true, false)
    case Guard(_, runID, _, backend) =>
      var current := backend.pid == me.pid && TrimSpace(backend.startedAt) == me.startedAt;
      GuardSnapshot(true, TrimSpace(runID), current, !current)
  }

  /** `removeActiveRunGuard`: only a readable guard of the same session is removed. */
  predicate RemovesGuard(guard: GuardFile, r: Reservation) {
    guard.Guard? && TrimSpace(guard.sessionID) == TrimSpace(r.sessionID)
  }

  /** What `writeActiveRunGuard` can do; its error is ignored by the caller. */
  datatype WriteResult = Written | LeftAlone | Torn

  // ----- stale-run recovery -----

  datatype RunRow = RunRow(id: string, terminal: bool)

  datatype StoreView = NoDatabase | StoreBroken | Rows(runs: map<string, RunRow>, latestResumable: Option<RunRow>)

  datatype Refusal = ActiveInThisBackend | NoRuntimeState | StoreFailed | NoUnfinishedRun | OwnedByThisBackend

  datatype Recovery =
    | Refused(why: Refusal)
    | Answered(recovered: bool, runID: string, guardCleared: bool)

  /** The run recovery is about: the requested one, else the guard's, else the latest resumable. */
  function SelectedRun(
    snapshot: GuardSnapshot, requestedRunID: string, runs: map<string, RunRow>,
    latest: Option<RunRow>): Option<RunRow> {
    var runID := if TrimSpace(requestedRunID) != "" then TrimSpace(requestedRunID) else TrimSpace(snapshot.runID);
    if runID == "" then latest else if runID in runs then Some(runs[runID]) else None
  }

  predicate Names(snapshot: GuardSnapshot, run: RunRow) {
    TrimSpace(snapshot.runID) == TrimSpace(run.id)
  }

  /** How the outside world treats one recovery: whether removing the guard file works, and
      whether the run can be read again after that. */
  datatype Luck = Luck(removes: bool, rereads: bool)

  function AfterRemove(guard: GuardFile, luck: Luck): GuardFile {
    if luck.removes then NoGuard else guard
  }

  function RecoverStaleRun(
    m: Manager, me: Backend, guard: GuardFile, requestedRunID: string, force: bool, store: StoreView, luck: Luck):
    (GuardFile, Recovery)
  {
    if m.active then (guard, Refused(ActiveInThisBackend))
    else
      var snapshot := BuildGuardSnapshot(guard, me);
      var clearable := snapshot.present && (snapshot.stale || force);
      match store
      case NoDatabase => ClearOr(guard, clearable, Refused(NoRuntimeState), luck)
      case StoreBroken => (guard, Refused(StoreFailed))
      case Rows(runs, latest) =>
        var found := SelectedRun(snapshot, requestedRunID, runs, latest);
        if found == None then ClearOr(guard, clearable, Refused(NoUnfinishedRun), luck)
        else RecoverFor(me, guard, snapshot, found.value, force, luck)
  }

  /** Without a run the guard is reported cleared, whatever became of its removal. */
  function ClearOr(guard: GuardFile, clearable: bool, otherwise: Recovery, luck: Luck): (GuardFile, Recovery) {
    if clearable then (AfterRemove(guard, luck), Answered(false, "", true)) else (guard, otherwise)
  }

  predicate RemovalConcerns(snapshot: GuardSnapshot, run: RunRow, force: bool) {
    snapshot.present && (TrimSpace(snapshot.runID) == "" || Names(snapshot, run) || force)
  }

  /** With a run the file is looked at again. */
  function RecoverFor(me: Backend, guard: GuardFile, snapshot: GuardSnapshot, run: RunRow, force: bool, luck: Luck):
    (GuardFile, Recovery)
  {
    var left := if RemovalConcerns(snapshot, run, force) then AfterRemove(guard, luck) else guard;
    if run.terminal then
      if (snapshot.stale || force) && RemovalConcerns(snapshot, run, force)
      then (left, Answered(false, run.id, !BuildGuardSnapshot(left, me).present))
      else (guard, Answered(false, run.id, false))
    else if !snapshot.stale && !force && Names(snapshot, run) then (guard, Refused(OwnedByThisBackend))
    else
      (left,
       if luck.rereads then Answered(true, run.id, !BuildGuardSnapshot(left, me).present) else Refused(StoreFailed))
  }

  // ----- the transition system -----

  datatype Phase =
    | Validating
    | Reserved(r: Reservation)
    | Attached(r: Reservation, runID: string)
    | Looping(r: Reservation)
    | LoopOver(r: Reservation)       // the deferred guard removal comes next
    | Unguarded(r: Reservation)      // the deferred finish comes next
    | Done

  /** One StartRun or ContinueRun call with its background loop; `reserves` and `releases`
      count the times it got the manager and the times it gave it back. */
  datatype Launch = Launch(phase: Phase, reserves: nat, releases: nat)

  predicate Holds(l: Launch) {
    l.phase.Reserved? || l.phase.Attached? || l.phase.Looping? || l.phase.LoopOver? || l.phase.Unguarded?
  }

  datatype State = State(
    me: Backend,
    manager: Manager,
    guard: GuardFile,
    launches: map<nat, Launch>,
    used: set<Backend>,          // every backend identity there has been
    leftBehind: bool)            // removing this backend's guard failed, and nothing replaced it since

  datatype Action =
    | Call(id: nat)
    | Reject(id: nat)
    | TryReserve(id: nat, action: string, now: int, sessionID: string)
    | Fail(id: nat)
    | Attach(id: nat, runID: string)
    | WriteGuard(id: nat, result: WriteResult)
    | EndLoop(id: nat)
    | RemoveGuard(id: nat, succeeds: bool)
    | Finish(id: nat)
    | Restart(as_: Backend, torn: bool)
    | Recover(runID: string, force: bool, store: StoreView, luck: Luck)

  function Start(me: Backend, guard: GuardFile): State
  {
    State(me, FREE_MANAGER, guard, map[], {me} + (if guard.Guard? then {guard.backend} else {}), false)
  }

  function WithLaunch(s: State, id: nat, l: Launch): State {
    s.(launches := s.launches[id := l])
  }

  /** One step; an action that is not possible changes nothing. */
  function Step(s: State, a: Action): State {
    match a
    case Call(id) =>
      if id in s.launches then s else WithLaunch(s, id, Launch(Validating, 0, 0))
    case Restart(as_, torn) =>
      if as_ in s.used || !Trimmed(as_.startedAt) then s
      else State(as_, FREE_MANAGER, if torn then UnreadableGuard else s.guard, map[], s.used + {as_}, false)
    case Recover(runID, force, store, luck) =>
      var guard := RecoverStaleRun(s.manager, s.me, s.guard, runID, force, store, luck).0;
      s.(guard := guard, leftBehind := s.leftBehind && guard != NoGuard)
    case _ =>
      if a.id in s.launches then StepLaunch(s, s.launches[a.id], a) else s
  }

  function StepLaunch(s: State, l: Launch, a: Action): State
    requires !a.Call? && !a.Restart? && !a.Recover?
  {
    match a
    case Reject(id) =>
      if l.phase.Validating? then WithLaunch(s, id, l.(phase := Done)) else s
    case TryReserve(id, action, now, sessionID) =>
      if !l.phase.Validating? then s
      else if s.manager.active then WithLaunch(s, id, l.(phase := Done))
      else
        var r := NewReservation(action, "", now, sessionID);
        WithLaunch(s.(manager := Occupied(r)), id, Launch(Reserved(r), l.reserves + 1, l.releases))
    case Fail(id) =>
      if l.phase.Reserved? then Release(s, id, l, l.phase.r) else s
    case Attach(id, runID) =>
      if l.phase.Reserved? then
        WithLaunch(s.(manager := AfterAttach(s.manager, l.phase.r, runID)), id, l.(phase := Attached(l.phase.r, runID)))
      else s
    case WriteGuard(id, result) =>
      if l.phase.Attached? then
        var guard := GuardAfterWrite(s, l.phase.r, l.phase.runID, result);
        WithLaunch(s.(guard := guard, leftBehind := s.leftBehind && result.LeftAlone?),
          id, l.(phase := Looping(l.phase.r)))
      else s
    case EndLoop(id) =>
      if l.phase.Looping? then WithLaunch(s, id, l.(phase := LoopOver(l.phase.r))) else s
    case RemoveGuard(id, succeeds) =>
      if !l.phase.LoopOver? then s
      else
        var next := WithLaunch(s, id, l.(phase := Unguarded(l.phase.r)));
        if !RemovesGuard(s.guard, l.phase.r) then next
        else if succeeds then next.(guard := NoGuard, leftBehind := false)
        else next.(leftBehind := s.leftBehind || s.guard.backend == s.me)
    case Finish(id) =>
      if l.phase.Unguarded? then Release(s, id, l, l.phase.r) else s
  }

  function GuardAfterWrite(s: State, r: Reservation, runID: string, result: WriteResult): GuardFile {
    match result
    case Written => Guard(r.sessionID, TrimSpace(runID), r.action, s.me)
    case LeftAlone => s.guard
    case Torn => UnreadableGuard
  }

  /** The launch calls finish; the release counts only if the manager honoured the reservation. */
  function Release(s: State, id: nat, l: Launch, r: Reservation): State {
    WithLaunch(s.(manager := AfterFinish(s.manager, r)), id,
      Launch(Done, l.reserves, l.releases + if Honours(s.manager, r) then 1 else 0))
  }

  function Run(s: State, actions: seq<Action>): State
    decreases |actions|
  {
    if actions == [] then s else Step(Run(s, actions[..|actions| - 1]), actions[|actions| - 1])
  }

  /** What a step of a launch does to the guard file: its write names the launch's own session, run
      and action and this backend, and its removal takes a readable guard of its own session only. */
  lemma GuardAfterStep(s: State, a: Action)
    requires !a.Restart? && !a.Recover?
    ensures var guard := Step(s, a).guard;
      if a.WriteGuard? && a.id in s.launches && s.launches[a.id].phase.Attached? then
        match a.result
        case Written =>
          guard.Guard? && guard.sessionID == s.launches[a.id].phase.r.sessionID
          && guard.runID == TrimSpace(s.launches[a.id].phase.runID)
          && guard.action == s.launches[a.id].phase.r.action && guard.backend == s.me
        case LeftAlone => guard == s.guard
        case Torn => guard == UnreadableGuard
      else if a.RemoveGuard? && a.succeeds && a.id in s.launches && s.launches[a.id].phase.LoopOver? && s.guard.Guard?
        && TrimSpace(s.guard.sessionID) == TrimSpace(s.launches[a.id].phase.r.sessionID) then guard == NoGuard
      else guard == s.guard
  {
  }

  /** The manager is taken by a reservation it can honour, and from then on listens to that action
      and start only. */
  lemma ManagerAfterStep(s: State, a: Action)
    ensures var m, now := s.manager, Step(s, a).manager;
      match a
      case TryReserve(id, action, at, _) =>
        if id in s.launches && s.launches[id].phase.Validating? && !m.active
        then now == Manager(true, "", TrimSpace(action), at) else now == m
      case Attach(id, runID) =>
        if id in s.launches && s.launches[id].phase.Reserved? && ListensTo(m, s.launches[id].phase.r)
        then now == m.(activeID := TrimSpace(runID)) else now == m
      case Fail(id) =>
        if id in s.launches && s.launches[id].phase.Reserved? && ListensTo(m, s.launches[id].phase.r)
        then now == Manager(false, "", "", 0) else now == m
      case Finish(id) =>
        if id in s.launches && s.launches[id].phase.Unguarded? && ListensTo(m, s.launches[id].phase.r)
        then now == Manager(false, "", "", 0) else now == m
      case Restart(_, _) => now in {m, Manager(false, "", "", 0)}
      case _ => now == m
  {
  }

  predicate ListensTo(m: Manager, r: Reservation) {
    m.active && (m.action, m.started) == (r.action, r.started)
  }

  /** Every step but a restart moves the launch it names and no other one, in one order. */
  lemma LaunchesAfterStep(s: State, a: Action, i: nat)
    requires !a.Restart?
    ensures i in Step(s, a).launches <==> i in s.launches || a == Call(i)
    ensures i in s.launches ==>
      var now, was := Step(s, a).launches[i].phase, s.launches[i].phase;
      if a.Recover? || a.Call? || a.id != i then now == was
      else match was
        case Validating =>
          if a.Reject? || (a.TryReserve? && s.manager.active) then now == Done
          else if a.TryReserve? then now == Reserved(Reservation("", TrimSpace(a.action), a.now, a.sessionID))
          else now == was
        case Reserved(r) =>
          now == if a.Attach? then Attached(r, a.runID) else if a.Fail? then Done else was
        case Attached(r, _) => now == if a.WriteGuard? then Looping(r) else was
        case Looping(r) => now == if a.EndLoop? then LoopOver(r) else was
        case LoopOver(r) => now == if a.RemoveGuard? then Unguarded(r) else was
        case Unguarded(r) => now == if a.Finish? then Done else was
        case Done => now == was
    ensures a == Call(i) && i !in s.launches ==> Step(s, a).launches[i] == Launch(Validating, 0, 0)
    ensures i in s.launches ==>
      var now, was := Step(s, a).launches[i], s.launches[i];
      var gets := a.TryReserve? && a.id == i && was.phase.Validating? && !s.manager.active;
      var gives :=
        && ((a.Fail? && was.phase.Reserved?) || (a.Finish? && was.phase.Unguarded?)) && a.id == i
        && ListensTo(s.manager, was.phase.r);
      && now.reserves == was.reserves + (if gets then 1 else 0)
      && now.releases == was.releases + (if gives then 1 else 0)
  {
    assert TrimSpace("") == "";
  }

  /** A restart with a backend identity nobody has had forgets everything but the guard file, which
      a torn write makes unreadable. */
  lemma RestartReads(s: State, as_: Backend, torn: bool)
    ensures if as_ in s.used || !Trimmed(as_.startedAt) then Step(s, Restart(as_, torn)) == s
      else
        var t := Step(s, Restart(as_, torn));
        && t.me == as_ && t.manager == Manager(false, "", "", 0) && t.launches == map[] && !t.leftBehind
        && t.used == s.used + {as_}
        && t.guard == (match torn case true => UnreadableGuard case false => s.guard)
  {
  }

  // ----- the invariant -----

  ghost predicate AtMostOneHolds(s: State) {
    forall i, j :: i in s.launches && j in s.launches && Holds(s.launches[i]) && Holds(s.launches[j]) ==> i == j
  }

  ghost predicate HoldersHonoured(s: State) {
    forall i :: i in s.launches && Holds(s.launches[i]) ==> Honours(s.manager, s.launches[i].phase.r)
  }

  ghost predicate ActiveIsHeld(s: State) {
    s.manager.active ==> exists i :: i in s.launches && Holds(s.launches[i])
  }

  ghost predicate Exclusive(s: State) {
    AtMostOneHolds(s) && HoldersHonoured(s) && ActiveIsHeld(s)
  }

  predicate Balanced(l: Launch) {
    && l.reserves <= 1
    && l.reserves == l.releases + (if Holds(l) then 1 else 0)
    && (l.phase.Validating? ==> l.reserves == 0)
  }

  ghost predicate AllBalanced(s: State) {
    forall i :: i in s.launches ==> Balanced(s.launches[i])
  }

  /** A guard that names this backend belongs to the one loop this backend is running. */
  ghost predicate GuardOwned(s: State) {
    s.guard.Guard? && s.guard.backend == s.me ==>
      exists i :: OwnsGuard(s, i)
  }

  ghost predicate Inv(s: State) {
    && Exclusive(s)
    && AllBalanced(s)
    && (if s.leftBehind then s.guard.Guard? && s.guard.backend == s.me else GuardOwned(s))
    && s.me in s.used
    && (s.guard.Guard? ==> s.guard.backend in s.used)
    && (forall b :: b in s.used ==> Trimmed(b.startedAt))
  }

  lemma StepKeepsBalance(s: State, a: Action)
    requires Exclusive(s) && AllBalanced(s)
    ensures AllBalanced(Step(s, a))
  {
    var t := Step(s, a);
    forall i | i in t.launches ensures Balanced(t.launches[i]) {
      if i in s.launches {
        assert Balanced(s.launches[i]);
      }
    }
  }

  /** A launch that holds the manager after a step held it before, unless it just reserved. */
  lemma NewHolderReserved(s: State, a: Action, i: nat)
    requires i in Step(s, a).launches && Holds(Step(s, a).launches[i])
    ensures i in s.launches && (Holds(s.launches[i]) || (a.TryReserve? && a.id == i && !s.manager.active))
    ensures i in s.launches && Holds(s.launches[i]) ==> Step(s, a).launches[i].phase.r == s.launches[i].phase.r
  {
  }

  lemma StepKeepsAtMostOneHolds(s: State, a: Action)
    requires Exclusive(s)
    ensures AtMostOneHolds(Step(s, a))
  {
    var t := Step(s, a);
    forall i, j | i in t.launches && j in t.launches && Holds(t.launches[i]) && Holds(t.launches[j]) ensures i == j {
      NewHolderReserved(s, a, i);
      NewHolderReserved(s, a, j);
    }
  }

  lemma StepKeepsHoldersHonoured(s: State, a: Action)
    requires Exclusive(s)
    ensures HoldersHonoured(Step(s, a))
  {
    var t := Step(s, a);
    forall i | i in t.launches && Holds(t.launches[i]) ensures Honours(t.manager, t.launches[i].phase.r) {
      NewHolderReserved(s, a, i);
    }
  }

  lemma StepKeepsActiveIsHeld(s: State, a: Action)
    requires Exclusive(s)
    ensures ActiveIsHeld(Step(s, a))
  {
    var t := Step(s, a);
    if t.manager.active && s.manager.active {
      var i :| i in s.launches && Holds(s.launches[i]);
      assert i in t.launches;
      assert Holds(t.launches[i]);
    } else if t.manager.active {
      assert a.TryReserve? && Holds(t.launches[a.id]);
    }
  }

  /** The loop of this backend whose guard is on disk. */
  predicate OwnsGuard(s: State, i: nat) {
    && i in s.launches && (s.launches[i].phase.Looping? || s.launches[i].phase.LoopOver?)
    && s.guard.Guard? && s.launches[i].phase.r.sessionID == s.guard.sessionID
  }

  lemma OwnerStays(s: State, a: Action, i: nat)
    requires OwnsGuard(s, i) && s.guard.backend == s.me && !a.Restart? && Step(s, a).guard == s.guard
    ensures OwnsGuard(Step(s, a), i) || Step(s, a).leftBehind
  {
  }

  lemma StepKeepsGuardOwned(s: State, a: Action)
    requires Inv(s)
    ensures var t := Step(s, a); !t.leftBehind ==> GuardOwned(t)
  {
    var t := Step(s, a);
    if !t.leftBehind && t.guard.Guard? && t.guard.backend == t.me {
      if a.WriteGuard? && a.id in s.launches && s.launches[a.id].phase.Attached? {
        assert OwnsGuard(t, a.id);
      } else if !a.Restart? {
        assert t.guard == s.guard && !s.leftBehind;
        var i :| OwnsGuard(s, i);
        OwnerStays(s, a, i);
      }
    }
  }

  lemma StepKeepsLeftBehind(s: State, a: Action)
    requires Inv(s)
    ensures var t := Step(s, a); t.leftBehind ==> t.guard.Guard? && t.guard.backend == t.me
  {
  }

  lemma StepKeepsInv(s: State, a: Action)
    requires Inv(s)
    ensures Inv(Step(s, a))
  {
    StepKeepsAtMostOneHolds(s, a);
    StepKeepsHoldersHonoured(s, a);
    StepKeepsActiveIsHeld(s, a);
    StepKeepsBalance(s, a);
    StepKeepsGuardOwned(s, a);
    StepKeepsLeftBehind(s, a);
  }

  lemma {:induction false} RunKeepsInv(s: State, actions: seq<Action>)
    requires Inv(s)
    ensures Inv(Run(s, actions))
    decreases |actions|
  {
    if actions != [] {
      RunKeepsInv(s, actions[..|actions| - 1]);
      StepKeepsInv(Run(s, actions[..|actions| - 1]), actions[|actions| - 1]);
    }
  }

  // ----- the theorems -----

  /** A fresh backend: its identity is new, whatever guard an earlier one left behind. */
  predicate Fresh(me: Backend, guard: GuardFile) {
    && Trimmed(me.startedAt)
    && (guard.Guard? ==> guard.backend != me && Trimmed(guard.backend.startedAt))
  }

  /** Mutual exclusion over every interleaving, with no assumption on the clock: at most one
      call holds a reservation, the manager is active exactly while one does, and every call
      that is over has given back what it got, once. */
  lemma RunsAreExclusive(me: Backend, guard: GuardFile, actions: seq<Action>)
    requires Fresh(me, guard)
    ensures var s := Run(Start(me, guard), actions);
      && (s.manager.active <==> exists i :: i in s.launches && Holds(s.launches[i]))
      && (forall i, j :: i in s.launches && j in s.launches && Holds(s.launches[i]) && Holds(s.launches[j]) ==> i == j)
      && (forall i :: i in s.launches && s.launches[i].phase.Done? ==>
           s.launches[i].releases == s.launches[i].reserves <= 1)
  {
    RunKeepsInv(Start(me, guard), actions);
  }

  /** Guard ownership across crashes: a guard that names the current backend means this backend is
      active, in a loop of that guard's session, unless it is one whose removal failed and which
      nothing has replaced since. */
  lemma OwnGuardMeansActive(me: Backend, guard: GuardFile, actions: seq<Action>)
    requires Fresh(me, guard)
    ensures var s := Run(Start(me, guard), actions);
      s.guard.Guard? && s.guard.backend == s.me && !s.leftBehind ==>
        s.manager.active && exists i :: OwnsGuard(s, i) && Holds(s.launches[i])
  {
    RunKeepsInv(Start(me, guard), actions);
  }

  /** So an inactive backend sees a live guard if and only if a removal of its own guard has failed
      and no write, removal or recovery has replaced that guard since. */
  lemma InactiveSeesLiveGuardExactly(me: Backend, guard: GuardFile, actions: seq<Action>)
    requires Fresh(me, guard)
    ensures var s := Run(Start(me, guard), actions); var snapshot := BuildGuardSnapshot(s.guard, s.me);
      !s.manager.active ==> (snapshot.present && !snapshot.stale <==> s.leftBehind)
  {
    RunKeepsInv(Start(me, guard), actions);
  }

  lemma RunSnoc(s: State, actions: seq<Action>, a: Action)
    ensures Run(s, actions + [a]) == Step(Run(s, actions), a)
  {
    assert (actions + [a])[..|actions|] == actions;
  }

  lemma {:induction false} RunConcat(s: State, a: seq<Action>, b: seq<Action>)
    ensures Run(s, a + b) == Run(Run(s, a), b)
    decreases |b|
  {
    if b == [] {
      assert a + b == a;
    } else {
      var before, last := b[..|b| - 1], b[|b| - 1];
      RunConcat(s, a, before);
      RunSnoc(s, a + before, last);
      RunSnoc(Run(s, a), before, last);
      assert a + b == a + before + [last] && b == before + [last];
    }
  }

  lemma RunOne(s: State, a: Action)
    ensures Run(s, [a]) == Step(s, a)
  {
    RunSnoc(s, [], a);
    assert [] + [a] == [a];
  }

  lemma RunTwo(s: State, a: Action, b: Action)
    ensures Run(s, [a, b]) == Step(Step(s, a), b)
  {
    RunOne(s, a);
    RunSnoc(s, [a], b);
    assert [a] + [b] == [a, b];
  }

  /** A call up to the guard it writes. */
  function Launching(id: nat, runID: string, now: int, sessionID: string): seq<Action> {
    [Call(id), TryReserve(id, "start_run", now, sessionID), Attach(id, runID), WriteGuard(id, Written)]
  }

  /** The end of its loop, with the removal failing. */
  function FailingEnd(id: nat): seq<Action> {
    [EndLoop(id), RemoveGuard(id, false), Finish(id)]
  }

  lemma LoopUpToGuard(s: State, id: nat, runID: string, now: int, sessionID: string)
    requires id !in s.launches && !s.manager.active
    ensures var r := NewReservation("start_run", "", now, sessionID);
      var t := Run(s, Launching(id, runID, now, sessionID));
      && id in t.launches && t.launches[id].phase == Looping(r) && Honours(t.manager, r)
      && t.guard == Guard(sessionID, TrimSpace(runID), r.action, s.me) && t.me == s.me
  {
    var reserve, attach := TryReserve(id, "start_run", now, sessionID), Attach(id, runID);
    RunTwo(s, Call(id), reserve);
    RunTwo(Run(s, [Call(id), reserve]), attach, WriteGuard(id, Written));
    RunConcat(s, [Call(id), reserve], [attach, WriteGuard(id, Written)]);
    assert Launching(id, runID, now, sessionID) == [Call(id), reserve] + [attach, WriteGuard(id, Written)];
  }

  lemma LoopFromGuard(s: State, id: nat, r: Reservation)
    requires id in s.launches && s.launches[id].phase == Looping(r) && Honours(s.manager, r)
    requires s.guard.Guard? && s.guard.sessionID == r.sessionID && s.guard.backend == s.me
    ensures var t := Run(s, FailingEnd(id));
      !t.manager.active && t.guard == s.guard && t.me == s.me && t.leftBehind
  {
    RunTwo(s, EndLoop(id), RemoveGuard(id, false));
    RunSnoc(s, [EndLoop(id), RemoveGuard(id, false)], Finish(id));
    assert FailingEnd(id) == [EndLoop(id), RemoveGuard(id, false)] + [Finish(id)];
  }

  /** A failed removal does that: from any inactive backend, the loop ends, the guard still names
      the backend, and nothing is active. */
  lemma FailedRemovalLeavesALiveGuard(s: State, id: nat, runID: string, now: int, sessionID: string)
    requires id !in s.launches && !s.manager.active && Trimmed(s.me.startedAt)
    ensures var t := Run(s, Launching(id, runID, now, sessionID) + FailingEnd(id));
      var snapshot := BuildGuardSnapshot(t.guard, t.me);
      !t.manager.active && snapshot.present && !snapshot.stale
  {
    LoopUpToGuard(s, id, runID, now, sessionID);
    RunConcat(s, Launching(id, runID, now, sessionID), FailingEnd(id));
    LoopFromGuard(Run(s, Launching(id, runID, now, sessionID)), id, NewReservation("start_run", "", now, sessionID));
  }

  // ----- recovery -----

  /** The run recovery is about exists. */
  predicate FindsRun(me: Backend, guard: GuardFile, runID: string, store: StoreView) {
    store.Rows? && SelectedRun(BuildGuardSnapshot(guard, me), runID, store.runs, store.latestResumable).Some?
  }

  /** Recovery never touches the guard of an active run, and at most removes it from disk. */
  lemma RecoveryRespectsActiveRuns(
    m: Manager, me: Backend, guard: GuardFile, runID: string, force: bool, store: StoreView, luck: Luck)
    ensures var (left, answer) := RecoverStaleRun(m, me, guard, runID, force, store, luck);
      && (left == guard || left == NoGuard)
      && (m.active ==> left == guard && answer == Refused(ActiveInThisBackend))
      && (!luck.removes ==> left == guard)
  {
  }

  /** A report that the guard was cleared is true if and only if the removal worked or the run was
      found: without a run the report does not look. */
  lemma ClearedReportIsTrueExactly(
    m: Manager, me: Backend, guard: GuardFile, runID: string, force: bool, store: StoreView, luck: Luck)
    ensures var (left, answer) := RecoverStaleRun(m, me, guard, runID, force, store, luck);
      answer.Answered? && answer.guardCleared ==>
        (left == NoGuard <==> luck.removes || FindsRun(me, guard, runID, store))
  {
    ClearedWithRun(m, me, guard, runID, force, store, luck);
    ClearedWithoutRun(m, me, guard, runID, force, store, luck);
  }

  lemma ClearedWithRun(
    m: Manager, me: Backend, guard: GuardFile, runID: string, force: bool, store: StoreView, luck: Luck)
    ensures var (left, answer) := RecoverStaleRun(m, me, guard, runID, force, store, luck);
      answer.Answered? && answer.guardCleared && FindsRun(me, guard, runID, store) ==> left == NoGuard
  {
  }

  lemma ClearedWithoutRun(
    m: Manager, me: Backend, guard: GuardFile, runID: string, force: bool, store: StoreView, luck: Luck)
    ensures var (left, answer) := RecoverStaleRun(m, me, guard, runID, force, store, luck);
      answer.Answered? && answer.guardCleared && !FindsRun(me, guard, runID, store) ==>
        guard != NoGuard && left == AfterRemove(guard, luck)
  {
  }

  /** The guard that recovery reports cleared and that is still there: a stale one in a place where
      nothing can be removed, before there is a database. */
  lemma ClearedReportCanBeFalse(me: Backend, guard: GuardFile, runID: string, rereads: bool)
    requires BuildGuardSnapshot(guard, me).stale
    ensures RecoverStaleRun(FREE_MANAGER, me, guard, runID, false, NoDatabase, Luck(false, rereads))
         == (guard, Answered(false, "", true))
    ensures guard != NoGuard
  {
  }

  /** Recovery gets as far as removing the guard of an unfinished run. */
  predicate ReachesRemoval(m: Manager, me: Backend, guard: GuardFile, runID: string, force: bool, store: StoreView) {
    && !m.active && FindsRun(me, guard, runID, store)
    && var snapshot := BuildGuardSnapshot(guard, me);
       var run := SelectedRun(snapshot, runID, store.runs, store.latestResumable).value;
       !run.terminal && (snapshot.stale || force || !Names(snapshot, run)) && RemovalConcerns(snapshot, run, force)
  }

  /** A refusal leaves the guard where it is if and only if it came before the removal, or the
      removal failed: the one refusal after it is a run that cannot be read again. */
  lemma RefusalKeepsGuardExactly(
    m: Manager, me: Backend, guard: GuardFile, runID: string, force: bool, store: StoreView, luck: Luck)
    ensures var (left, answer) := RecoverStaleRun(m, me, guard, runID, force, store, luck);
      answer.Refused? ==> (left == guard <==> !(ReachesRemoval(m, me, guard, runID, force, store) && luck.removes))
  {
    assert BuildGuardSnapshot(NoGuard, me).present == false;
  }

  /** A refusal after which the guard is gone: a stale guard of an unfinished run, and a store that
      fails on the second reading. */
  lemma RefusalCanLoseTheGuard(me: Backend, guard: GuardFile, runs: map<string, RunRow>, latest: Option<RunRow>)
    requires guard.Guard? && BuildGuardSnapshot(guard, me).stale && !Blank(guard.runID)
    requires TrimSpace(guard.runID) in runs && runs[TrimSpace(guard.runID)] == RunRow(TrimSpace(guard.runID), false)
    ensures RecoverStaleRun(FREE_MANAGER, me, guard, "", false, Rows(runs, latest), Luck(true, false))
         == (NoGuard, Refused(StoreFailed))
  {
    assert TrimSpace("") == "";
    assert TrimSpace(TrimSpace(guard.runID)) == TrimSpace(guard.runID);
  }

  /** Naming no run, an operator clears any stale guard if and only if its removal works. */
  lemma UnnamedRecoveryClearsExactly(
    m: Manager, me: Backend, guard: GuardFile, runs: map<string, RunRow>, latest: Option<RunRow>, luck: Luck)
    requires !m.active && BuildGuardSnapshot(guard, me).stale
    requires forall id :: id in runs ==> runs[id].id == id
    ensures RecoverStaleRun(m, me, guard, "", false, Rows(runs, latest), luck).0 == NoGuard <==> luck.removes
  {
    var snapshot := BuildGuardSnapshot(guard, me);
    assert TrimSpace("") == "";
    assert TrimSpace(TrimSpace(snapshot.runID)) == TrimSpace(snapshot.runID);
  }

  lemma RecoveryNotRefusedAsOwned(
    m: Manager, me: Backend, guard: GuardFile, runID: string, runs: map<string, RunRow>, latest: Option<RunRow>,
    luck: Luck)
    requires !m.active
    requires var snapshot := BuildGuardSnapshot(guard, me); snapshot.present <==> snapshot.stale
    requires forall id :: id in runs ==> !Blank(runs[id].id)
    requires latest.Some? ==> !Blank(latest.value.id)
    ensures RecoverStaleRun(m, me, guard, runID, false, Rows(runs, latest), luck).1 != Refused(OwnedByThisBackend)
  {
    var snapshot := BuildGuardSnapshot(guard, me);
    if !snapshot.stale {
      assert snapshot.runID == "" && TrimSpace(snapshot.runID) == "";
    }
  }

  /** After any crash or failure an inactive backend with a readable store is never refused as
      "owned by this backend", and without force and naming no run it clears whatever guard there
      is if and only if that removal works; only a live guard left behind needs force. */
  lemma InactiveRecoveryClearsTheGuard(
    me: Backend, guard: GuardFile, actions: seq<Action>, store: StoreView, luck: Luck)
    requires Fresh(me, guard)
    requires store.Rows?
    requires forall id :: id in store.runs ==> store.runs[id].id == id && !Blank(store.runs[id].id)
    requires store.latestResumable.Some? ==> !Blank(store.latestResumable.value.id)
    ensures var s := Run(Start(me, guard), actions);
      !s.leftBehind && !s.manager.active ==>
        && (forall runID ::
              RecoverStaleRun(s.manager, s.me, s.guard, runID, false, store, luck).1 != Refused(OwnedByThisBackend))
        && (s.guard != NoGuard ==>
              (RecoverStaleRun(s.manager, s.me, s.guard, "", false, store, luck).0 == NoGuard <==> luck.removes))
  {
    var s := Run(Start(me, guard), actions);
    if !s.leftBehind && !s.manager.active {
      InactiveSeesLiveGuardExactly(me, guard, actions);
      forall runID
        ensures RecoverStaleRun(s.manager, s.me, s.guard, runID, false, store, luck).1 != Refused(OwnedByThisBackend)
      {
        RecoveryNotRefusedAsOwned(s.manager, s.me, s.guard, runID, store.runs, store.latestResumable, luck);
      }
      if s.guard != NoGuard {
        UnnamedRecoveryClearsExactly(s.manager, s.me, s.guard, store.runs, store.latestResumable, luck);
      }
    }
  }
}
