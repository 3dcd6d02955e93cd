/** What a stale-run recovery comes to, said of the request, the guard file and the store: which run
    it is about, when that run is recovered, and when the guard goes. */
module Recovery {
  import opened Text
  import opened RunProtocol

  /** The run id in the guard file, blank without one. */
  function GuardedRun(guard: GuardFile): string {
    match guard
    case Guard(_, runID, _, _) => TrimSpace(runID)
    case _ => ""
  }

  /** The guard was left by another backend, or nobody can read it. */
  predicate LeftByAnother(guard: GuardFile, me: Backend) {
    match guard
    case NoGuard => false
    case UnreadableGuard => true
    case Guard(_, _, _, backend) => backend.pid != me.pid || TrimSpace(backend.startedAt) != me.startedAt
  }

  /** The run a recovery is about: the requested one if one is named, else the guard's, and the
      latest resumable one only if both are blank. */
  predicate IsAbout(
    guard: GuardFile, requested: string, runs: map<string, RunRow>, latest: Option<RunRow>, run: Option<RunRow>)
  {
    && (TrimSpace(requested) != "" ==>
          if TrimSpace(requested) in runs then run == Some(runs[TrimSpace(requested)]) else run == None)
    && (TrimSpace(requested) == "" && GuardedRun(guard) != "" ==>
          if GuardedRun(guard) in runs then run == Some(runs[GuardedRun(guard)]) else run == None)
    && (TrimSpace(requested) == "" && GuardedRun(guard) == "" ==> run == latest)
  }

  /** The guard speaks for the run, or for no run. */
  predicate SpeaksFor(guard: GuardFile, run: RunRow) {
    guard != NoGuard && GuardedRun(guard) in {"", TrimSpace(run.id)}
  }

  /** The run is taken to be in the hands of this backend. */
  predicate InOurHands(guard: GuardFile, me: Backend, run: RunRow) {
    !LeftByAnother(guard, me) && GuardedRun(guard) == TrimSpace(run.id)
  }

  lemma GuardReads(guard: GuardFile, me: Backend)
    ensures var snapshot := BuildGuardSnapshot(guard, me);
      && TrimSpace(snapshot.runID) == GuardedRun(guard)
      && snapshot.present == (guard != NoGuard)
      && snapshot.stale == LeftByAnother(guard, me)
  {
    assert TrimSpace("") == "";
  }

  /** There is exactly one run a recovery is about. */
  lemma AboutReads(
    me: Backend, guard: GuardFile, requested: string, runs: map<string, RunRow>, latest: Option<RunRow>,
    run: Option<RunRow>)
    ensures IsAbout(guard, requested, runs, latest, run)
      <==> run == SelectedRun(BuildGuardSnapshot(guard, me), requested, runs, latest)
  {
    GuardReads(guard, me);
  }

  /** A run is reported recovered exactly when no run is active here, the run the request is about
      exists, is not over and is not in the hands of this backend (which force overrides), and can
      be read again. */
  lemma RecoversExactly(
    m: Manager, me: Backend, guard: GuardFile, requested: string, force: bool, store: StoreView, luck: Luck,
    run: Option<RunRow>)
    requires store.Rows? ==> IsAbout(guard, requested, store.runs, store.latestResumable, run)
    ensures var answer := RecoverStaleRun(m, me, guard, requested, force, store, luck).1;
      answer.Answered? && answer.recovered
      <==> && !m.active && store.Rows? && run.Some? && !run.value.terminal
           && (force || !InOurHands(guard, me, run.value))
           && luck.rereads
  {
    GuardReads(guard, me);
    if store.Rows? {
      AboutReads(me, guard, requested, store.runs, store.latestResumable, run);
    }
  }

  /** An answer names the run the request is about, or none if there is none. */
  lemma AnswerNamesTheRun(
    m: Manager, me: Backend, guard: GuardFile, requested: string, force: bool, store: StoreView, luck: Luck,
    run: Option<RunRow>)
    requires store.Rows? ==> IsAbout(guard, requested, store.runs, store.latestResumable, run)
    ensures var answer := RecoverStaleRun(m, me, guard, requested, force, store, luck).1;
      answer.Answered? ==> answer.runID == if store.Rows? && run.Some? then run.value.id else ""
  {
    if store.Rows? {
      AboutReads(me, guard, requested, store.runs, store.latestResumable, run);
    }
  }

  /** A recovery sets out to remove the guard. */
  predicate WantsTheGuardGone(
    m: Manager, me: Backend, guard: GuardFile, force: bool, store: StoreView, run: Option<RunRow>)
  {
    && !m.active && guard != NoGuard && store != StoreBroken
    && if store == NoDatabase || run == None then LeftByAnother(guard, me) || force
       else
         && (force || SpeaksFor(guard, run.value))
         && if run.value.terminal then LeftByAnother(guard, me) || force
            else force || !InOurHands(guard, me, run.value)
  }

  /** The guard is gone exactly when there was none, or recovery wants it gone and removing works. */
  lemma GuardGoesExactly(
    m: Manager, me: Backend, guard: GuardFile, requested: string, force: bool, store: StoreView, luck: Luck,
    run: Option<RunRow>)
    requires store.Rows? ==> IsAbout(guard, requested, store.runs, store.latestResumable, run)
    ensures var left := RecoverStaleRun(m, me, guard, requested, force, store, luck).0;
      left == if WantsTheGuardGone(m, me, guard, force, store, run) && luck.removes then NoGuard else guard
  {
    GuardReads(guard, me);
    if store.Rows? {
      AboutReads(me, guard, requested, store.runs, store.latestResumable, run);
    }
  }

  /** The guard is reported cleared exactly when recovery found no run and wanted the guard gone, or
      found one and there is no guard after it, except that a run that is over needs the guard to
      have been in the way. */
  lemma ReportsClearedExactly(
    m: Manager, me: Backend, guard: GuardFile, requested: string, force: bool, store: StoreView, luck: Luck,
    run: Option<RunRow>)
    requires store.Rows? ==> IsAbout(guard, requested, store.runs, store.latestResumable, run)
    ensures var (left, answer) := RecoverStaleRun(m, me, guard, requested, force, store, luck);
      answer.Answered? ==>
        (answer.guardCleared
         <==> if store.Rows? && run.Some? then
                left == NoGuard && (run.value.terminal ==> WantsTheGuardGone(m, me, guard, force, store, run))
              else WantsTheGuardGone(m, me, guard, force, store, run))
  {
    GuardReads(guard, me);
    if store.Rows? {
      AboutReads(me, guard, requested, store.runs, store.latestResumable, run);
    }
  }

  /** Each refusal has its own reason, and they are looked for in this order. */
  lemma RefusesExactly(
    m: Manager, me: Backend, guard: GuardFile, requested: string, force: bool, store: StoreView, luck: Luck,
    run: Option<RunRow>)
    requires store.Rows? ==> IsAbout(guard, requested, store.runs, store.latestResumable, run)
    ensures var answer := RecoverStaleRun(m, me, guard, requested, force, store, luck).1;
      && (answer == Refused(ActiveInThisBackend) <==> m.active)
      && (answer == Refused(NoRuntimeState)
          <==> !m.active && store == NoDatabase && !WantsTheGuardGone(m, me, guard, force, store, run))
      && (answer == Refused(NoUnfinishedRun)
          <==> !m.active && store.Rows? && run == None && !WantsTheGuardGone(m, me, guard, force, store, run))
      && (answer == Refused(OwnedByThisBackend)
          <==> && !m.active && store.Rows? && run.Some? && !run.value.terminal
               && !force && InOurHands(guard, me, run.value))
      && (answer == Refused(StoreFailed)
          <==> && !m.active
               && (|| store == StoreBroken
                   || (&& store.Rows? && run.Some? && !run.value.terminal
                       && (force || !InOurHands(guard, me, run.value)) && !luck.rereads)))
  {
    GuardReads(guard, me);
    if store.Rows? {
      AboutReads(me, guard, requested, store.runs, store.latestResumable, run);
    }
  }

  /** A request that names a run goes by that row alone: no other row of the store, and not the
      latest resumable run, has a say. */
  lemma NamedRequestGoesByItsRow(
    m: Manager, me: Backend, guard: GuardFile, requested: string, force: bool, luck: Luck,
    runs: map<string, RunRow>, latest: Option<RunRow>, others: map<string, RunRow>, otherLatest: Option<RunRow>)
    requires !Blank(requested)
    requires var id := TrimSpace(requested); id in runs <==> id in others
    requires var id := TrimSpace(requested); id in runs ==> runs[id] == others[id]
    ensures RecoverStaleRun(m, me, guard, requested, force, Rows(runs, latest), luck)
         == RecoverStaleRun(m, me, guard, requested, force, Rows(others, otherLatest), luck)
  {
  }

  /** Naming a run that is over, or one the store does not have, recovers nothing whatever the guard
      says; and without force a guard that names another run stays. */
  lemma NamedRunIsTheOne(
    m: Manager, me: Backend, guard: GuardFile, requested: string, force: bool, runs: map<string, RunRow>,
    latest: Option<RunRow>, luck: Luck)
    requires !Blank(requested)
    ensures var id := TrimSpace(requested);
      var (left, answer) := RecoverStaleRun(m, me, guard, requested, force, Rows(runs, latest), luck);
      && ((id in runs ==> runs[id].terminal) ==> !(answer.Answered? && answer.recovered))
      && (id in runs && !force && GuardedRun(guard) !in {"", TrimSpace(runs[id].id)} ==> left == guard)
  {
    var id := TrimSpace(requested);
    var run := if id in runs then Some(runs[id]) else None;
    RecoversExactly(m, me, guard, requested, force, Rows(runs, latest), luck, run);
    GuardGoesExactly(m, me, guard, requested, force, Rows(runs, latest), luck, run);
  }
}
