/** Autofill: which targets a request may name, and when a response answers exactly those. */
module Autofill {
  import opened Text
  import opened RepoPaths

  const CANONICAL_FILES := [
    ".orchestrator/brief.md",
    ".orchestrator/roadmap.md",
    ".orchestrator/constraints.md",
    ".orchestrator/decisions.md",
    ".orchestrator/human-notes.md",
    ".orchestrator/goal.md",
    "AGENTS.md"
  ]

  datatype Normalized = Targets(paths: seq<string>) | NoTargets | PathRequired | NotATarget(path: string)

  datatype Verdict =
    | Accepted
    | RepoPathRequired
    | TargetsRequired
    | BlankTarget
    | DuplicateTarget(path: string)
    | MessageRequired
    | FilesRequired
    | UnexpectedPath(path: string)
    | EmptyContent(path: string)
    | OmittedTargets(missing: set<string>)

  datatype DraftFile = DraftFile(path: string, content: string)

  // ----- normalising targets -----

  function NormalizeAll(targets: seq<string>): (rels: seq<string>)
    ensures |rels| == |targets| && forall i :: 0 <= i < |targets| ==> rels[i] == NormalizeRelativePath(targets[i])
  {
    seq(|targets|, i requires 0 <= i < |targets| => NormalizeRelativePath(targets[i]))
  }

  /** The normal paths from the first on, given what is already collected. */
  function Collect(rels: seq<string>, collected: seq<string>): Normalized
    decreases |rels|
  {
    if rels == [] then Targets(collected)
    else if rels[0] == "" then PathRequired
    else if rels[0] !in CANONICAL_FILES then NotATarget(rels[0])
    else Collect(rels[1..], if rels[0] in collected then collected else collected + [rels[0]])
  }

  function NormalizeSpec(targets: seq<string>): Normalized {
    if targets == [] then NoTargets else Collect(NormalizeAll(targets), [])
  }

  method NormalizeAutofillTargets(targets: seq<string>) returns (result: Normalized)
    ensures result == NormalizeSpec(targets)
  {
    if |targets| == 0 {
      return NoTargets;
    }
    var normalized := [];
    var seen: set<string> := {};
    ghost var rels := NormalizeAll(targets);
    assert rels[0..] == rels;
    for i := 0 to |targets|
      invariant forall p :: p in seen <==> p in normalized
      invariant Collect(rels, []) == Collect(rels[i..], normalized)
    {
      assert rels[i..][0] == rels[i] && rels[i..][1..] == rels[i + 1..];
      var rel := NormalizeRelativePath(targets[i]);
      if rel == "" {
        return PathRequired;
      }
      if rel !in CANONICAL_FILES {
        return NotATarget(rel);
      }
      if rel in seen {
        continue;
      }
      seen := seen + {rel};
      normalized := normalized + [rel];
    }
    return Targets(normalized);
  }

  ghost predicate Distinct(s: seq<string>) {
    forall i, j :: 0 <= i < j < |s| ==> s[i] != s[j]
  }

  ghost predicate Acceptable(target: string) {
    NormalizeRelativePath(target) in CANONICAL_FILES
  }

  ghost predicate AllCanonical(rels: seq<string>) {
    forall p :: p in rels ==> p in CANONICAL_FILES
  }

  lemma AllCanonicalCons(rels: seq<string>)
    requires rels != []
    ensures AllCanonical(rels) <==> rels[0] in CANONICAL_FILES && AllCanonical(rels[1..])
  {
    assert rels == [rels[0]] + rels[1..];
  }

  lemma {:induction false} CollectSucceeds(rels: seq<string>, collected: seq<string>)
    ensures Collect(rels, collected).Targets? <==> AllCanonical(rels)
    decreases |rels|
  {
    if rels != [] {
      CanonicalIsNotBlank(rels[0]);
      AllCanonicalCons(rels);
      CollectSucceeds(rels[1..], if rels[0] in collected then collected else collected + [rels[0]]);
    }
  }

  /** What has been collected stays in front, and what is added is distinct and comes from the
      targets; every target is represented. */
  ghost predicate Collected(rels: seq<string>, collected: seq<string>, paths: seq<string>) {
    && collected <= paths && Distinct(paths)
    && (forall p :: p in paths ==> p in collected || p in rels)
    && (forall p :: p in rels ==> p in paths)
  }

  lemma {:induction false} CollectCollects(rels: seq<string>, collected: seq<string>)
    requires Distinct(collected) && Collect(rels, collected).Targets?
    ensures Collected(rels, collected, Collect(rels, collected).paths)
    decreases |rels|
  {
    if rels != [] {
      CollectCollects(rels[1..], if rels[0] in collected then collected else collected + [rels[0]]);
      CollectedOneMore(rels, collected, Collect(rels, collected).paths);
    }
  }

  lemma CollectedOneMore(rels: seq<string>, collected: seq<string>, paths: seq<string>)
    requires rels != []
    requires Collected(rels[1..], if rels[0] in collected then collected else collected + [rels[0]], paths)
    ensures Collected(rels, collected, paths)
  {
    var next := if rels[0] in collected then collected else collected + [rels[0]];
    assert rels == [rels[0]] + rels[1..];
    PrefixIsIn(rels[0], next, paths);
  }

  lemma PrefixIsIn(p: string, next: seq<string>, paths: seq<string>)
    requires p in next && next <= paths
    ensures p in paths
  {
    var k :| 0 <= k < |next| && next[k] == p;
    assert paths[k] == p;
  }

  lemma CanonicalIsNotBlank(path: string)
    ensures path in CANONICAL_FILES ==> path != "" && Trimmed(path)
  {
    assert |CANONICAL_FILES| == 7;
  }

  lemma AcceptableExactly(targets: seq<string>)
    ensures AllCanonical(NormalizeAll(targets)) <==> forall i :: 0 <= i < |targets| ==> Acceptable(targets[i])
  {
    var rels := NormalizeAll(targets);
    if AllCanonical(rels) {
      forall i | 0 <= i < |targets| ensures Acceptable(targets[i]) {
        assert rels[i] in rels;
      }
    }
  }

  /** Normalising targets succeeds exactly when there are some and all are acceptable, and then
      yields each of their normal paths once. */
  lemma NormalizedTargetsAreExact(targets: seq<string>)
    ensures NormalizeSpec(targets).Targets?
      <==> targets != [] && forall i :: 0 <= i < |targets| ==> Acceptable(targets[i])
    ensures NormalizeSpec(targets).Targets? ==>
      Collected(NormalizeAll(targets), [], NormalizeSpec(targets).paths) && NormalizeSpec(targets).paths != []
  {
    CollectSucceeds(NormalizeAll(targets), []);
    AcceptableExactly(targets);
    if NormalizeSpec(targets).Targets? {
      CollectCollects(NormalizeAll(targets), []);
      assert NormalizeAll(targets)[0] in NormalizeAll(targets);
    }
  }

  /** The seven files a target can name. */
  lemma CanonicalFilesAre(path: string)
    ensures path in CANONICAL_FILES
      <==> path in {".orchestrator/brief.md", ".orchestrator/roadmap.md", ".orchestrator/constraints.md",
                    ".orchestrator/decisions.md", ".orchestrator/human-notes.md", ".orchestrator/goal.md",
                    "AGENTS.md"}
  {
    assert |CANONICAL_FILES| == 7;
  }

  lemma {:induction false} CollectStopsAt(rels: seq<string>, collected: seq<string>, k: nat)
    requires k < |rels| && AllCanonical(rels[..k]) && rels[k] !in CANONICAL_FILES
    ensures Collect(rels, collected) == if rels[k] == "" then PathRequired else NotATarget(rels[k])
    decreases |rels|
  {
    if k > 0 {
      assert rels[0] in rels[..k];
      CanonicalIsNotBlank(rels[0]);
      assert rels[1..][..k - 1] == rels[..k][1..];
      CollectStopsAt(rels[1..], if rels[0] in collected then collected else collected + [rels[0]], k - 1);
    }
  }

  /** Targets that are not all acceptable are turned down for the first that is not, under its normal
      path if it has one. */
  lemma FirstBadTargetDecides(targets: seq<string>, k: nat)
    requires k < |targets| && !Acceptable(targets[k]) && forall i :: 0 <= i < k ==> Acceptable(targets[i])
    ensures var rel := NormalizeRelativePath(targets[k]);
      NormalizeSpec(targets) == if rel == "" then PathRequired else NotATarget(rel)
  {
    var rels := NormalizeAll(targets);
    forall p | p in rels[..k] ensures p in CANONICAL_FILES {
      var i :| 0 <= i < k && rels[i] == p;
      assert Acceptable(targets[i]);
    }
    CollectStopsAt(rels, [], k);
  }

  // ----- checking a request -----

  function CheckTargets(targets: seq<string>, seen: set<string>): Verdict
    decreases |targets|
  {
    if targets == [] then Accepted
    else
      var path := TrimSpace(targets[0]);
      if path == "" then BlankTarget
      else if path in seen then DuplicateTarget(path)
      else CheckTargets(targets[1..], seen + {path})
  }

  function RequestVerdict(repoPath: string, targets: seq<string>): Verdict {
    if Blank(repoPath) then RepoPathRequired
    else if targets == [] then TargetsRequired
    else CheckTargets(targets, {})
  }

  method ValidateRequest(repoPath: string, targets: seq<string>) returns (verdict: Verdict)
    ensures verdict == RequestVerdict(repoPath, targets)
  {
    if TrimSpace(repoPath) == "" {
      return RepoPathRequired;
    }
    if |targets| == 0 {
      return TargetsRequired;
    }
    var seen: set<string> := {};
    for i := 0 to |targets|
      invariant CheckTargets(targets, {}) == CheckTargets(targets[i..], seen)
    {
      assert targets[i..][0] == targets[i] && targets[i..][1..] == targets[i + 1..];
      var normalized := TrimSpace(targets[i]);
      if normalized == "" {
        return BlankTarget;
      }
      if normalized in seen {
        return DuplicateTarget(normalized);
      }
      seen := seen + {normalized};
    }
    return Accepted;
  }

  ghost predicate New(paths: seq<string>, seen: set<string>) {
    Distinct(paths) && forall p :: p in paths ==> p != "" && p !in seen
  }

  lemma NewCons(head: string, tail: seq<string>, seen: set<string>)
    ensures New([head] + tail, seen) <==> head != "" && head !in seen && New(tail, seen + {head})
  {
    DistinctCons(head, tail);
    assert ([head] + tail)[0] == head;
    assert forall p :: p in [head] + tail <==> p == head || p in tail;
  }

  /** The target checks pass exactly when no trimmed target is blank or repeated. */
  lemma {:induction false} TargetsPassExactly(targets: seq<string>, seen: set<string>)
    ensures CheckTargets(targets, seen) == Accepted <==> New(TrimAll(targets), seen)
    decreases |targets|
  {
    if targets != [] {
      var path := TrimSpace(targets[0]);
      TargetsPassExactly(targets[1..], seen + {path});
      assert TrimAll(targets) == [path] + TrimAll(targets[1..]);
      NewCons(path, TrimAll(targets[1..]), seen);
    }
  }

  lemma DistinctCons(head: string, tail: seq<string>)
    ensures Distinct([head] + tail) <==> head !in tail && Distinct(tail)
  {
    var all := [head] + tail;
    if Distinct(all) {
      forall i | 0 <= i < |tail| ensures tail[i] != head {
        assert all[0] != all[i + 1];
      }
      forall i, j | 0 <= i < j < |tail| ensures tail[i] != tail[j] {
        assert all[i + 1] != all[j + 1];
      }
    }
  }

  lemma {:induction false} CheckTargetsStopsAt(targets: seq<string>, seen: set<string>, k: nat)
    requires k < |targets| && New(TrimAll(targets[..k]), seen)
    requires var path := TrimSpace(targets[k]); path == "" || path in seen || path in TrimAll(targets[..k])
    ensures var path := TrimSpace(targets[k]);
      CheckTargets(targets, seen) == if path == "" then BlankTarget else DuplicateTarget(path)
    decreases |targets|
  {
    if k > 0 {
      var head := TrimSpace(targets[0]);
      assert targets[1..][..k - 1] == targets[..k][1..];
      assert TrimAll(targets[..k]) == [head] + TrimAll(targets[1..][..k - 1]);
      NewCons(head, TrimAll(targets[1..][..k - 1]), seen);
      CheckTargetsStopsAt(targets[1..], seen + {head}, k - 1);
    }
  }

  /** What is wrong with a request, the first thing first: no repository, no targets, or the first
      target that is blank or repeats an earlier one. */
  lemma RequestReads(repoPath: string, targets: seq<string>)
    ensures var r := RequestVerdict(repoPath, targets);
      && (r == RepoPathRequired <==> TrimSpace(repoPath) == "")
      && (r == TargetsRequired <==> TrimSpace(repoPath) != "" && targets == [])
    ensures forall k :: 0 <= k < |targets| && TrimSpace(repoPath) != "" && New(TrimAll(targets[..k]), {}) ==>
      var path := TrimSpace(targets[k]);
      path == "" || path in TrimAll(targets[..k]) ==>
        RequestVerdict(repoPath, targets) == if path == "" then BlankTarget else DuplicateTarget(path)
  {
    CheckTargetsComplains(targets, {});
    forall k | 0 <= k < |targets| && New(TrimAll(targets[..k]), {})
      && (TrimSpace(targets[k]) == "" || TrimSpace(targets[k]) in TrimAll(targets[..k]))
      ensures CheckTargets(targets, {})
           == if TrimSpace(targets[k]) == "" then BlankTarget else DuplicateTarget(TrimSpace(targets[k]))
    {
      CheckTargetsStopsAt(targets, {}, k);
    }
  }

  /** The target checks complain about targets only. */
  lemma {:induction false} CheckTargetsComplains(targets: seq<string>, seen: set<string>)
    ensures var r := CheckTargets(targets, seen); r in {Accepted, BlankTarget} || r.DuplicateTarget?
    decreases |targets|
  {
    if targets != [] {
      CheckTargetsComplains(targets[1..], seen + {TrimSpace(targets[0])});
    }
  }

  lemma CanonicalIsItsOwnTrim(paths: seq<string>)
    requires AllCanonical(paths)
    ensures TrimAll(paths) == paths
    ensures "" !in paths
  {
    forall i | 0 <= i < |paths| ensures TrimAll(paths)[i] == paths[i] && paths[i] != "" {
      CanonicalIsNotBlank(paths[i]);
      assert paths[i] in paths;
    }
  }

  lemma NormalizedAreCanonical(targets: seq<string>)
    requires NormalizeSpec(targets).Targets?
    ensures AllCanonical(NormalizeSpec(targets).paths)
  {
    NormalizedTargetsAreExact(targets);
    CollectSucceeds(NormalizeAll(targets), []);
  }

  /** Whatever normalising yields passes the request's target checks. */
  lemma NormalizedTargetsPass(targets: seq<string>, repoPath: string)
    requires NormalizeSpec(targets).Targets? && !Blank(repoPath)
    ensures RequestVerdict(repoPath, NormalizeSpec(targets).paths) == Accepted
  {
    NormalizedTargetsAreExact(targets);
    NormalizedAreCanonical(targets);
    CanonicalIsItsOwnTrim(NormalizeSpec(targets).paths);
    TargetsPassExactly(NormalizeSpec(targets).paths, {});
  }

  lemma NormalAgain(targets: seq<string>, p: string)
    requires p in NormalizeAll(targets) && p in CANONICAL_FILES
    ensures NormalizeRelativePath(p) == p
  {
    var i :| 0 <= i < |targets| && NormalizeAll(targets)[i] == p;
    CanonicalIsNotBlank(p);
    NormalizedIsFixedWhenTrimmed(targets[i]);
  }

  /** And normalising it again changes nothing. */
  lemma NormalizingAgain(targets: seq<string>)
    requires NormalizeSpec(targets).Targets?
    ensures NormalizeSpec(NormalizeSpec(targets).paths) == NormalizeSpec(targets)
  {
    var paths := NormalizeSpec(targets).paths;
    NormalizedTargetsAreExact(targets);
    NormalizedAreCanonical(targets);
    forall i | 0 <= i < |paths| ensures NormalizeAll(paths)[i] == paths[i] {
      assert paths[i] in paths;
      NormalAgain(targets, paths[i]);
    }
    assert NormalizeAll(paths) == paths;
    CollectFixed(paths, []);
    assert [] + paths == paths;
  }

  lemma {:induction false} CollectFixed(paths: seq<string>, collected: seq<string>)
    requires AllCanonical(paths) && Distinct(collected + paths)
    ensures Collect(paths, collected) == Targets(collected + paths)
    decreases |paths|
  {
    if paths == [] {
      assert collected + paths == collected;
    } else {
      CanonicalIsNotBlank(paths[0]);
      AllCanonicalCons(paths);
      DistinctMiddle(collected, paths);
      CollectFixed(paths[1..], collected + [paths[0]]);
    }
  }

  lemma DistinctMiddle(collected: seq<string>, paths: seq<string>)
    requires paths != [] && Distinct(collected + paths)
    ensures paths[0] !in collected && collected + [paths[0]] + paths[1..] == collected + paths
  {
    forall k | 0 <= k < |collected| ensures collected[k] != paths[0] {
      assert (collected + paths)[k] != (collected + paths)[|collected|];
    }
  }

  // ----- checking a response -----

  function CheckFiles(files: seq<DraftFile>, remaining: set<string>): Verdict
    decreases |files|
  {
    if files == [] then if remaining == {} then Accepted else OmittedTargets(remaining)
    else
      var path := TrimSpace(files[0].path);
      if path !in remaining then UnexpectedPath(files[0].path)
      else if Blank(files[0].content) then EmptyContent(files[0].path)
      else CheckFiles(files[1..], remaining - {path})
  }

  function TargetSet(targets: seq<string>): set<string> {
    ElementsOf(TrimAll(targets))
  }

  function ResponseVerdict(message: string, files: seq<DraftFile>, targets: seq<string>): Verdict {
    if Blank(message) then MessageRequired
    else if files == [] then FilesRequired
    else CheckFiles(files, TargetSet(targets))
  }

  method ValidateResponse(message: string, files: seq<DraftFile>, targets: seq<string>) returns (verdict: Verdict)
    ensures verdict == ResponseVerdict(message, files, targets)
  {
    if TrimSpace(message) == "" {
      return MessageRequired;
    }
    if |files| == 0 {
      return FilesRequired;
    }
    var remaining := CollectTargets(targets);
    for i := 0 to |files|
      invariant CheckFiles(files, TargetSet(targets)) == CheckFiles(files[i..], remaining)
    {
      assert files[i..][0] == files[i] && files[i..][1..] == files[i + 1..];
      var path := TrimSpace(files[i].path);
      if path !in remaining {
        return UnexpectedPath(files[i].path);
      }
      if TrimSpace(files[i].content) == "" {
        return EmptyContent(files[i].path);
      }
      remaining := remaining - {path};
    }
    if |remaining| > 0 {
      return OmittedTargets(remaining);
    }
    return Accepted;
  }

  method CollectTargets(targets: seq<string>) returns (remaining: set<string>)
    ensures remaining == TargetSet(targets)
  {
    remaining := {};
    for i := 0 to |targets|
      invariant remaining == ElementsOf(TrimAll(targets)[..i])
    {
      assert TrimAll(targets)[..i + 1] == TrimAll(targets)[..i] + [TrimSpace(targets[i])];
      remaining := remaining + {TrimSpace(targets[i])};
    }
    assert TrimAll(targets)[..|targets|] == TrimAll(targets);
  }

  function PathsOf(files: seq<DraftFile>): (r: seq<string>)
    ensures |r| == |files| && forall i :: 0 <= i < |files| ==> r[i] == TrimSpace(files[i].path)
  {
    seq(|files|, i requires 0 <= i < |files| => TrimSpace(files[i].path))
  }

  function ElementsOf(s: seq<string>): set<string> {
    set p | p in s
  }

  ghost predicate Names(paths: seq<string>, remaining: set<string>) {
    Distinct(paths) && ElementsOf(paths) == remaining
  }

  lemma NamesCons(head: string, tail: seq<string>, remaining: set<string>)
    ensures Names([head] + tail, remaining) <==> head in remaining && Names(tail, remaining - {head})
  {
    DistinctCons(head, tail);
    assert ElementsOf([head] + tail) == ElementsOf(tail) + {head};
    assert head in tail <==> head in ElementsOf(tail);
  }

  ghost predicate AllFilled(files: seq<DraftFile>) {
    forall i :: 0 <= i < |files| ==> !Blank(files[i].content)
  }

  lemma FilledCons(files: seq<DraftFile>)
    requires files != []
    ensures AllFilled(files) <==> !Blank(files[0].content) && AllFilled(files[1..])
  {
    assert files == [files[0]] + files[1..];
  }

  /** The files pass exactly when their contents are not blank and their trimmed paths name each
      remaining target once and nothing else. */
  lemma {:induction false} FilesPassExactly(files: seq<DraftFile>, remaining: set<string>)
    ensures CheckFiles(files, remaining) == Accepted <==> AllFilled(files) && Names(PathsOf(files), remaining)
    decreases |files|
  {
    if files != [] {
      var path := TrimSpace(files[0].path);
      FilesPassExactly(files[1..], remaining - {path});
      assert PathsOf(files) == [path] + PathsOf(files[1..]);
      NamesCons(path, PathsOf(files[1..]), remaining);
      FilledCons(files);
    }
  }

  /** The paths are different ones of those that are left. */
  ghost predicate NamesSome(paths: seq<string>, remaining: set<string>) {
    Distinct(paths) && ElementsOf(paths) <= remaining
  }

  lemma NamesSomeCons(head: string, tail: seq<string>, remaining: set<string>)
    ensures NamesSome([head] + tail, remaining) <==> head in remaining && NamesSome(tail, remaining - {head})
    ensures ElementsOf([head] + tail) == {head} + ElementsOf(tail)
  {
    DistinctCons(head, tail);
    assert ElementsOf([head] + tail) == {head} + ElementsOf(tail);
    assert head in tail <==> head in ElementsOf(tail);
  }

  lemma PathsCons(files: seq<DraftFile>)
    requires files != []
    ensures PathsOf(files) == [TrimSpace(files[0].path)] + PathsOf(files[1..])
  {
  }

  lemma OneFileIsSkipped(files: seq<DraftFile>, remaining: set<string>, path: string)
    requires files != [] && path == TrimSpace(files[0].path) && path in remaining && !Blank(files[0].content)
    ensures CheckFiles(files, remaining) == CheckFiles(files[1..], remaining - {path})
  {
  }

  lemma TwoDifferences(remaining: set<string>, path: string, later: set<string>, all: set<string>)
    requires all == {path} + later
    ensures remaining - {path} - later == remaining - all
  {
  }

  /** Files that each name a target of their own and say something are ticked off. */
  lemma {:induction false} PassingFilesAreSkipped(files: seq<DraftFile>, rest: seq<DraftFile>, remaining: set<string>)
    requires AllFilled(files) && NamesSome(PathsOf(files), remaining)
    ensures CheckFiles(files + rest, remaining) == CheckFiles(rest, remaining - ElementsOf(PathsOf(files)))
    decreases |files|
  {
    if files == [] {
      assert files + rest == rest && remaining - ElementsOf([]) == remaining;
    } else {
      var path, paths := TrimSpace(files[0].path), PathsOf(files[1..]);
      PathsCons(files);
      NamesSomeCons(path, paths, remaining);
      FilledCons(files);
      assert (files + rest)[1..] == files[1..] + rest;
      OneFileIsSkipped(files + rest, remaining, path);
      PassingFilesAreSkipped(files[1..], rest, remaining - {path});
      TwoDifferences(remaining, path, ElementsOf(paths), ElementsOf(PathsOf(files)));
    }
  }

  /** The first file that does not pass decides: it names nothing that is left of the targets, or says
      nothing.  If all pass, the targets that are left are reported. */
  lemma FirstBadFileDecides(
    files: seq<DraftFile>, bad: DraftFile, rest: seq<DraftFile>, remaining: set<string>, left: set<string>)
    requires AllFilled(files) && NamesSome(PathsOf(files), remaining)
    requires left == remaining - ElementsOf(PathsOf(files))
    ensures CheckFiles(files, remaining) == if left == {} then Accepted else OmittedTargets(left)
    ensures TrimSpace(bad.path) !in left ==>
      CheckFiles(files + ([bad] + rest), remaining) == UnexpectedPath(bad.path)
    ensures TrimSpace(bad.path) in left && TrimSpace(bad.content) == "" ==>
      CheckFiles(files + ([bad] + rest), remaining) == EmptyContent(bad.path)
  {
    PassingFilesAreSkipped(files, [], remaining);
    assert files + [] == files;
    PassingFilesAreSkipped(files, [bad] + rest, remaining);
  }

  /** What comes before the files: a message, and then files at all; they are checked against the
      trimmed targets. */
  lemma ResponseReads(message: string, files: seq<DraftFile>, targets: seq<string>)
    ensures var r := ResponseVerdict(message, files, targets);
      && (TrimSpace(message) == "" ==> r == MessageRequired)
      && (TrimSpace(message) != "" && files == [] ==> r == FilesRequired)
      && (TrimSpace(message) != "" && files != [] ==> r == CheckFiles(files, TargetSet(targets)))
    ensures forall p :: p in TargetSet(targets) <==> exists i :: 0 <= i < |targets| && TrimSpace(targets[i]) == p
  {
    var trimmed := TrimAll(targets);
    forall p ensures p in TargetSet(targets) <==> exists i :: 0 <= i < |targets| && TrimSpace(targets[i]) == p {
      if p in TargetSet(targets) {
        var i :| 0 <= i < |trimmed| && trimmed[i] == p;
        assert TrimSpace(targets[i]) == p;
      }
      if i :| 0 <= i < |targets| && TrimSpace(targets[i]) == p {
        assert trimmed[i] == p;
      }
    }
  }

  lemma {:induction false} DistinctCounts(s: seq<string>, p: string)
    requires Distinct(s)
    ensures multiset(s)[p] == if p in s then 1 else 0
  {
    if s != [] {
      assert s == [s[0]] + s[1..];
      DistinctCons(s[0], s[1..]);
      DistinctCounts(s[1..], p);
    }
  }

  lemma {:induction false} CountOnce(s: seq<string>)
    requires forall p :: p in s ==> multiset(s)[p] == 1
    ensures Distinct(s)
  {
    if s != [] {
      var head, tail := s[0], s[1..];
      assert s == [head] + tail;
      assert multiset(s) == multiset{head} + multiset(tail);
      assert head !in tail by {
        assert multiset(s)[head] == 1;
      }
      forall p | p in tail ensures multiset(tail)[p] == 1 {
        assert p in s && p != head;
      }
      CountOnce(tail);
      DistinctCons(head, tail);
    }
  }

  /** Distinct and with the elements of a distinct sequence: the same multiset. */
  lemma SameMultiset(a: seq<string>, b: seq<string>)
    requires Distinct(b)
    ensures multiset(a) == multiset(b) <==> Distinct(a) && ElementsOf(a) == ElementsOf(b)
  {
    forall p ensures multiset(b)[p] == if p in b then 1 else 0 {
      DistinctCounts(b, p);
    }
    if multiset(a) == multiset(b) {
      assert forall p :: p in a <==> p in multiset(a);
      assert forall p :: p in b <==> p in multiset(b);
      CountOnce(a);
    } else if Distinct(a) && ElementsOf(a) == ElementsOf(b) {
      forall p ensures multiset(a)[p] == multiset(b)[p] {
        DistinctCounts(a, p);
        DistinctCounts(b, p);
        assert p in a <==> p in ElementsOf(a);
      }
      assert false;
    }
  }

  /** A response passes exactly when its message and contents are not blank and the trimmed file
      paths are, as a multiset, the distinct trimmed targets. */
  lemma ResponseIsExact(message: string, files: seq<DraftFile>, targets: seq<string>)
    requires targets != [] && Distinct(TrimAll(targets))
    ensures ResponseVerdict(message, files, targets) == Accepted
      <==> !Blank(message) && AllFilled(files)
           && multiset(PathsOf(files)) == multiset(TrimAll(targets))
  {
    FilesPassExactly(files, TargetSet(targets));
    SameMultiset(PathsOf(files), TrimAll(targets));
    if files == [] {
      assert TrimAll(targets)[0] in multiset(TrimAll(targets));
      assert PathsOf(files) == [];
    }
  }

  /** End to end: a response to normalised targets passes exactly when nothing in it is blank and
      it names each of them once and nothing else. */
  lemma NormalizedResponseIsExact(raw: seq<string>, message: string, files: seq<DraftFile>)
    ensures NormalizeSpec(raw).Targets? ==>
      (ResponseVerdict(message, files, NormalizeSpec(raw).paths) == Accepted
       <==> !Blank(message) && AllFilled(files) && multiset(PathsOf(files)) == multiset(NormalizeSpec(raw).paths))
  {
    if NormalizeSpec(raw).Targets? {
      NormalizedTargetsAreExact(raw);
      NormalizedAreCanonical(raw);
      CanonicalIsItsOwnTrim(NormalizeSpec(raw).paths);
      ResponseIsExact(message, files, NormalizeSpec(raw).paths);
    }
  }
}
