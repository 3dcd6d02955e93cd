/** Overlapping changes of the runtime configuration: a change replaces the one in memory under the
    lock and writes the file after it has left the lock, and a reload reads the file before it takes
    the lock. */
module ConfigRaces {
  import opened Text
  import opened Config
  import opened RuntimeConfig

  /** `memory` is every configuration there has been in memory, the current one last; `saving` and
      `loading` say which of them a change still has to write and a reload has read, and `written`
      which of them the file holds. */
  datatype State = State(memory: seq<Config>, saving: map<nat, nat>, loading: map<nat, nat>, written: nat)

  datatype Action =
    | Change(p: nat, change: Config -> Config)
    | Persist(p: nat)
    | ReadFile(p: nat)
    | TakeOver(p: nat)

  ghost predicate Valid(s: State) {
    && s.written < |s.memory|
    && (forall p :: p in s.saving ==> s.saving[p] < |s.memory|)
    && (forall p :: p in s.loading ==> s.loading[p] < |s.memory|)
  }

  function Current(s: State): Config
    requires s.memory != []
  {
    s.memory[|s.memory| - 1]
  }

  /** One step; every write of the file succeeds, and a reload takes over what `back` makes of the
      configuration that was saved. */
  function Step(s: State, a: Action, back: Config -> Config): State {
    match a
    case Change(p, change) =>
      if p in s.saving || s.memory == [] then s
      else s.(memory := s.memory + [change(Current(s))], saving := s.saving[p := |s.memory|])
    case Persist(p) =>
      if p !in s.saving then s else s.(saving := s.saving - {p}, written := s.saving[p])
    case ReadFile(p) =>
      if p in s.loading then s else s.(loading := s.loading[p := s.written])
    case TakeOver(p) =>
      if p !in s.loading || s.loading[p] >= |s.memory| then s
      else s.(memory := s.memory + [back(s.memory[s.loading[p]])], loading := s.loading - {p})
  }

  /** A change works on the configuration in memory and has it still to write; a write puts what it
      has to write in the file; a reload takes over what it read, and is then done. */
  lemma StepReads(s: State, a: Action, back: Config -> Config)
    requires Valid(s)
    ensures var t := Step(s, a, back);
      match a
      case Change(p, change) =>
        t == if p in s.saving then s
             else State(s.memory + [change(s.memory[|s.memory| - 1])], s.saving[p := |s.memory|], s.loading, s.written)
      case Persist(p) =>
        t == if p !in s.saving then s else State(s.memory, s.saving - {p}, s.loading, s.saving[p])
      case ReadFile(p) =>
        t == if p in s.loading then s else State(s.memory, s.saving, s.loading[p := s.written], s.written)
      case TakeOver(p) =>
        t == if p !in s.loading then s
             else State(s.memory + [back(s.memory[s.loading[p]])], s.saving, s.loading - {p}, s.written)
  {
  }

  function After(s: State, actions: seq<Action>, back: Config -> Config): State
    decreases |actions|
  {
    if actions == [] then s else After(Step(s, actions[0], back), actions[1..], back)
  }

  lemma StepKeepsValid(s: State, a: Action, back: Config -> Config)
    requires Valid(s)
    ensures Valid(Step(s, a, back))
  {
  }

  lemma {:induction false} AfterKeepsValid(s: State, actions: seq<Action>, back: Config -> Config)
    requires Valid(s)
    ensures Valid(After(s, actions, back))
    decreases |actions|
  {
    if actions != [] {
      StepKeepsValid(s, actions[0], back);
      AfterKeepsValid(Step(s, actions[0], back), actions[1..], back);
    }
  }

  // ----- what the functions stand for -----

  function File(s: State, parse: DurationParser): FileContent
    requires s.written < |s.memory|
  {
    Saved(s.memory[s.written], parse)
  }

  /** The file is what a save of the current configuration writes. */
  predicate Agree(s: State, parse: DurationParser)
    requires s.written < |s.memory|
  {
    File(s, parse) == Saved(Current(s), parse)
  }

  // ----- writes in the order of the changes -----

  /** No change is written after a later one, and no reload takes anything over. */
  predicate InOrder(s: State, actions: seq<Action>, back: Config -> Config)
    decreases |actions|
  {
    actions != [] ==> !OutOfOrder(s, actions[0]) && InOrder(Step(s, actions[0], back), actions[1..], back)
  }

  predicate OutOfOrder(s: State, a: Action) {
    a.TakeOver? || (a.Persist? && a.p in s.saving && s.saving[a.p] < s.written)
  }

  /** What came into memory last is written, or still to be. */
  ghost predicate LastIsKnown(s: State) {
    s.written == |s.memory| - 1 || exists p :: p in s.saving && s.saving[p] == |s.memory| - 1
  }

  lemma PersistKeepsLast(s: State, p: nat, back: Config -> Config)
    requires Valid(s) && LastIsKnown(s) && p in s.saving && s.saving[p] >= s.written
    ensures LastIsKnown(Step(s, Persist(p), back))
  {
    var t := Step(s, Persist(p), back);
    if s.written != |s.memory| - 1 {
      var q :| q in s.saving && s.saving[q] == |s.memory| - 1;
      assert q == p || (q in t.saving && t.saving[q] == |s.memory| - 1);
    }
  }

  lemma StepKeepsLast(s: State, a: Action, back: Config -> Config)
    requires Valid(s) && LastIsKnown(s) && !OutOfOrder(s, a)
    ensures LastIsKnown(Step(s, a, back))
  {
    var t := Step(s, a, back);
    if a.Persist? && a.p in s.saving {
      PersistKeepsLast(s, a.p, back);
    } else if a.Change? && a.p !in s.saving {
      assert a.p in t.saving && t.saving[a.p] == |t.memory| - 1;
    }
  }

  lemma {:induction false} OrderKeepsLast(s: State, actions: seq<Action>, back: Config -> Config)
    requires Valid(s) && LastIsKnown(s) && InOrder(s, actions, back)
    ensures LastIsKnown(After(s, actions, back))
    decreases |actions|
  {
    if actions != [] {
      StepKeepsValid(s, actions[0], back);
      StepKeepsLast(s, actions[0], back);
      OrderKeepsLast(Step(s, actions[0], back), actions[1..], back);
    }
  }

  lemma LastIsWritten(s: State)
    requires Valid(s) && LastIsKnown(s) && s.saving == map[]
    ensures s.written == |s.memory| - 1 && s.memory[s.written] == Current(s)
  {
  }

  lemma AgreeAtLast(s: State, parse: DurationParser)
    requires s.written < |s.memory| && s.memory[s.written] == Current(s)
    ensures Agree(s, parse)
  {
  }

  /** When the writes come in the order of the changes, the file holds the current configuration as
      soon as nothing is left to write. */
  lemma WritesInOrderAgree(s: State, actions: seq<Action>, back: Config -> Config, parse: DurationParser)
    requires Valid(s) && LastIsKnown(s) && InOrder(s, actions, back) && After(s, actions, back).saving == map[]
    ensures Valid(After(s, actions, back)) && Agree(After(s, actions, back), parse)
  {
    AfterKeepsValid(s, actions, back);
    OrderKeepsLast(s, actions, back);
    LastIsWritten(After(s, actions, back));
    AgreeAtLast(After(s, actions, back), parse);
  }

  // ----- exactly when the last change is lost from the file -----

  /** A configuration is still to be written by one change at most, and not once it is written. */
  ghost predicate Single(s: State) {
    && (forall p :: p in s.saving ==> s.saving[p] != s.written)
    && (forall p, q :: p in s.saving && q in s.saving && s.saving[p] == s.saving[q] ==> p == q)
  }

  /** An older change is written over the newest. */
  predicate Undoes(s: State, a: Action) {
    a.Persist? && a.p in s.saving && s.written == |s.memory| - 1
  }

  /** That has happened, and nothing new has come into memory since. */
  ghost predicate Undone(s: State, actions: seq<Action>, back: Config -> Config) {
    exists k :: 0 <= k < |actions| && UndoneAt(s, actions, back, k)
  }

  ghost predicate UndoneAt(s: State, actions: seq<Action>, back: Config -> Config, k: nat)
    requires k < |actions|
  {
    var earlier := After(s, actions[..k], back);
    Undoes(earlier, actions[k]) && |earlier.memory| == |After(s, actions, back).memory|
  }

  lemma {:induction false} AfterSnoc(s: State, before: seq<Action>, a: Action, back: Config -> Config)
    ensures After(s, before + [a], back) == Step(After(s, before, back), a, back)
    decreases |before|
  {
    if before == [] {
      assert [] + [a] == [a] && [a][1..] == [];
      assert After(s, [a], back) == After(Step(s, a, back), [], back);
    } else {
      assert (before + [a])[1..] == before[1..] + [a];
      AfterSnoc(Step(s, before[0], back), before[1..], a, back);
    }
  }

  lemma {:induction false} MemoryGrows(s: State, actions: seq<Action>, back: Config -> Config, k: nat)
    requires k <= |actions|
    ensures |After(s, actions[..k], back).memory| <= |After(s, actions, back).memory|
    decreases |actions| - k
  {
    if k < |actions| {
      assert actions[..k + 1] == actions[..k] + [actions[k]];
      AfterSnoc(s, actions[..k], actions[k], back);
      MemoryGrows(s, actions, back, k + 1);
    } else {
      assert actions[..k] == actions;
    }
  }

  lemma UndoneSnoc(s: State, before: seq<Action>, a: Action, back: Config -> Config)
    ensures var t := After(s, before, back); var same := |Step(t, a, back).memory| == |t.memory|;
      Undone(s, before + [a], back) <==> same && (Undone(s, before, back) || Undoes(t, a))
  {
    var all, t := before + [a], After(s, before, back);
    AfterSnoc(s, before, a, back);
    assert all[..|before|] == before;
    forall k | 0 <= k < |before|
      ensures all[..k] == before[..k] && all[k] == before[k]
      ensures |After(s, before[..k], back).memory| <= |t.memory|
    {
      MemoryGrows(s, before, back, k);
    }
    if Undone(s, all, back) {
      var k :| 0 <= k < |all| && UndoneAt(s, all, back, k);
      assert k < |before| ==> all[..k] == before[..k];
      assert k < |before| && |Step(t, a, back).memory| == |t.memory| ==> UndoneAt(s, before, back, k);
    }
    if |Step(t, a, back).memory| == |t.memory| {
      if k :| 0 <= k < |before| && UndoneAt(s, before, back, k) {
        assert UndoneAt(s, all, back, k);
      }
      if Undoes(t, a) {
        assert UndoneAt(s, all, back, |before|);
      }
    }
  }

  lemma StepKeepsSingle(s: State, a: Action, back: Config -> Config)
    requires Valid(s) && Single(s)
    ensures Single(Step(s, a, back))
  {
  }

  lemma StepKnowsExactly(s: State, a: Action, back: Config -> Config)
    requires Valid(s) && Single(s) && !a.TakeOver?
    ensures var t := Step(s, a, back); var same := |t.memory| == |s.memory|;
      LastIsKnown(t) <==> !same || (LastIsKnown(s) && !Undoes(s, a))
  {
    var t := Step(s, a, back);
    if a.Persist? && a.p in s.saving {
      if q :| q in s.saving && s.saving[q] == |s.memory| - 1 && q != a.p {
        assert q in t.saving && t.saving[q] == |t.memory| - 1;
      }
    } else if a.Change? && a.p !in s.saving {
      assert a.p in t.saving && t.saving[a.p] == |t.memory| - 1;
    }
  }

  lemma {:induction false} KnownExactly(s: State, actions: seq<Action>, back: Config -> Config)
    requires Valid(s) && Single(s) && LastIsKnown(s)
    requires forall i :: 0 <= i < |actions| ==> !actions[i].TakeOver?
    ensures var t := After(s, actions, back);
      Valid(t) && Single(t) && (LastIsKnown(t) <==> !Undone(s, actions, back))
    decreases |actions|
  {
    if actions != [] {
      var before, a := actions[..|actions| - 1], actions[|actions| - 1];
      assert actions == before + [a];
      KnownExactly(s, before, back);
      AfterSnoc(s, before, a, back);
      UndoneSnoc(s, before, a, back);
      var t := After(s, before, back);
      StepKeepsValid(t, a, back);
      StepKeepsSingle(t, a, back);
      StepKnowsExactly(t, a, back);
    }
  }

  /** Without reloads, once nothing is left to write: the file holds the configuration that came into
      memory last if and only if no older one was written over it. */
  lemma FileIsCurrentExactly(s: State, actions: seq<Action>, back: Config -> Config)
    requires Valid(s) && Single(s) && LastIsKnown(s)
    requires (forall i :: 0 <= i < |actions| ==> !actions[i].TakeOver?) && After(s, actions, back).saving == map[]
    ensures var t := After(s, actions, back); t.written == |t.memory| - 1 <==> !Undone(s, actions, back)
  {
    KnownExactly(s, actions, back);
  }

  /** The first of two overlapping changes is written last. */
  function Crossed(p: nat, q: nat, first: Action, second: Action): seq<Action> {
    [first, second, Persist(q), Persist(p)]
  }

  lemma FourSteps(s: State, a: Action, b: Action, c: Action, d: Action, back: Config -> Config)
    ensures After(s, [a, b, c, d], back) == Step(Step(Step(Step(s, a, back), b, back), c, back), d, back)
  {
    var s1 := Step(s, a, back);
    var s2 := Step(s1, b, back);
    var s3 := Step(s2, c, back);
    assert [a, b, c, d][1..] == [b, c, d] && [b, c, d][1..] == [c, d] && [c, d][1..] == [d] && [d][1..] == [];
    assert After(s3, [d], back) == After(Step(s3, d, back), [], back);
    assert After(s2, [c, d], back) == After(s3, [d], back);
    assert After(s1, [b, c, d], back) == After(s2, [c, d], back);
  }

  lemma CrossedChanges(s: State, p: nat, q: nat, f: Config -> Config, g: Config -> Config, back: Config -> Config)
    requires Valid(s) && p != q && p !in s.saving && q !in s.saving
    ensures var t := After(s, Crossed(p, q, Change(p, f), Change(q, g)), back);
      && t.memory == s.memory + [f(Current(s)), g(f(Current(s)))] && t.written == |s.memory| && t.saving == s.saving
      && t.loading == s.loading
  {
    FourSteps(s, Change(p, f), Change(q, g), Persist(q), Persist(p), back);
    var older := f(Current(s));
    assert s.memory + [older] + [g(older)] == s.memory + [older, g(older)];
    assert (s.saving[p := |s.memory|][q := |s.memory| + 1] - {q}) - {p} == s.saving;
  }

  lemma ReloadTakesBack(t: State, p: nat, back: Config -> Config)
    requires Valid(t) && p !in t.loading
    ensures Current(Step(Step(t, ReadFile(p), back), TakeOver(p), back)) == back(t.memory[t.written])
  {
  }

  /** Of two overlapping changes whose writes cross, the later is in memory and the earlier in the
      file, with nothing left to write, and a reload takes the later one back. */
  lemma OlderChangeWins(s: State, p: nat, q: nat, f: Config -> Config, g: Config -> Config, back: Config -> Config)
    requires Valid(s) && p != q && p !in s.saving && q !in s.saving && p !in s.loading
    ensures var older := f(Current(s)); var t := After(s, Crossed(p, q, Change(p, f), Change(q, g)), back);
      && Valid(t) && t.saving == s.saving && Current(t) == g(older) && t.memory[t.written] == older
      && Current(Step(Step(t, ReadFile(p), back), TakeOver(p), back)) == back(older)
  {
    CrossedChanges(s, p, q, f, g, back);
    AfterKeepsValid(s, Crossed(p, q, Change(p, f), Change(q, g)), back);
    ReloadTakesBack(After(s, Crossed(p, q, Change(p, f), Change(q, g)), back), p, back);
  }
}
