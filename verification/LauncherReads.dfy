/** The launcher's results read off their inputs: which entries of a PATH survive a repair and as what
    text, which files the search reports, and what an inspection says of the winner. */
module LauncherReads {
  import opened Text
  import opened Paths
  import opened Launcher

  // ----- entries -----

  lemma JoinOfPrefixed(c: char, parts: seq<string>)
    requires parts != []
    ensures JoinList(Prefixed(c, parts)) == [c] + JoinList(parts)
  {
    if c == ':' {
      assert ([""] + parts)[1..] == parts;
    } else {
      assert ([[c] + parts[0]] + parts[1..])[1..] == parts[1..];
    }
  }

  /** The entries, joined again, are the list they were cut from. */
  lemma {:induction false} JoinOfSplit(s: string)
    ensures JoinList(SplitColons(s)) == s
  {
    if s != "" {
      JoinOfSplit(s[1..]);
      JoinOfPrefixed(s[0], SplitColons(s[1..]));
      assert s == [s[0]] + s[1..];
    }
  }

  /** An empty list has no entries, not one empty entry. */
  lemma EmptyListReads(s: string)
    ensures SplitList(s) == if s == "" then [] else SplitColons(s)
    ensures JoinList([]) == "" && JoinList([s]) == s
  {
  }

  /** Two texts name the same path if they clean to the same one. */
  lemma SamePathReads(a: string, b: string)
    ensures SamePath(a, b) <==> CleanSpec(TrimSpace(a)) == CleanSpec(TrimSpace(b))
  {
    CleanIsNotEmpty(TrimSpace(a));
  }

  /** An entry that says something and does not name the target. */
  predicate Stays(entry: string, target: string) {
    && (exists j :: 0 <= j < |entry| && !IsSpace(entry[j]))
    && CleanSpec(TrimSpace(entry)) != CleanSpec(TrimSpace(target))
  }

  /** `text` is `entry` without the white space at its ends. */
  ghost predicate IsCutFrom(text: string, entry: string) {
    Trimmed(text) && exists lo: nat, hi: nat :: SpaceAround(entry, lo, hi) && text == entry[lo..hi]
  }

  lemma KeepsReads(entry: string, target: string)
    ensures Keeps(entry, target) <==> Stays(entry, target)
  {
    BlankIsAllSpace(entry);
    SamePathReads(TrimSpace(entry), target);
  }

  lemma TrimIsCut(entry: string)
    ensures IsCutFrom(TrimSpace(entry), entry)
  {
    var lo, hi := TrimCuts(entry);
  }

  /** `kept` are the entries that stay, in order, each without the white space at its ends; `at` says
      where they stood. */
  ghost predicate Survivors(entries: seq<string>, target: string, at: seq<nat>, kept: seq<string>) {
    && |at| == |kept|
    && (forall k :: 0 <= k < |at| ==> at[k] < |entries| && IsCutFrom(kept[k], entries[at[k]]))
    && (forall j, k :: 0 <= j < k < |at| ==> at[j] < at[k])
    && (forall i :: 0 <= i < |entries| ==> (i in at <==> Stays(entries[i], target)))
  }

  /** The target is what is left of the directory without the white space at its ends, cleaned. */
  lemma TargetReads(targetDir: string) returns (lo: nat, hi: nat)
    ensures SpaceAround(targetDir, lo, hi) && Target(targetDir) == CleanSpec(targetDir[lo..hi])
  {
    lo, hi := TrimCuts(targetDir);
  }

  lemma KeptReads(entries: seq<string>, target: string) returns (at: seq<nat>)
    ensures Survivors(entries, target, at, Kept(entries, target))
  {
    at := KeptInOrder(entries, target);
    var kept := Kept(entries, target);
    forall k | 0 <= k < |at| ensures IsCutFrom(kept[k], entries[at[k]]) {
      TrimIsCut(entries[at[k]]);
    }
    forall i | 0 <= i < |entries| ensures i in at <==> Stays(entries[i], target) {
      KeepsReads(entries[i], target);
      assert Flags(entries, Keeper(target))[i] == Keeps(entries[i], target);
    }
  }

  /** An entry with any character that is not white space, and that does not name the target, is in
      the repaired PATH as exactly what is left of it without the white space at its ends. */
  lemma EntrySurvivesRepair(pathValue: string, targetDir: string, i: nat) returns (lo: nat, hi: nat)
    requires i < |SplitList(pathValue)| && Stays(SplitList(pathValue)[i], Target(targetDir))
    ensures var entry := SplitList(pathValue)[i];
      SpaceAround(entry, lo, hi) && lo < hi && entry[lo..hi] in SplitList(Repaired(pathValue, targetDir))
  {
    var entries, target := SplitList(pathValue), Target(targetDir);
    var at := KeptInOrder(entries, target);
    KeepsReads(entries[i], target);
    assert Flags(entries, Keeper(target))[i] && i in at;
    var k :| 0 <= k < |at| && at[k] == i;
    lo, hi := TrimCuts(entries[i]);
    assert TrimAll(entries)[i] == TrimSpace(entries[i]);
    assert Kept(entries, target)[k] == entries[i][lo..hi];
    RepairedEntries(pathValue, targetDir);
  }

  // ----- commands -----

  /** The file looked for in a directory. */
  function CommandPath(dir: string, ext: string): string {
    CleanSpec(TrimSpace(dir) + "/orchestrator" + ext)
  }

  function CommandPaths(dir: string, exts: seq<string>): (r: seq<string>)
    ensures |r| == |exts| && forall e :: 0 <= e < |exts| ==> r[e] == CommandPath(dir, exts[e])
  {
    seq(|exts|, e requires 0 <= e < |exts| => CommandPath(dir, exts[e]))
  }

  /** The candidate is the file of one of the paths of an entry, and says which entry that was. */
  predicate IsCommandIn(c: Candidate, dir: string, rank: nat, exts: seq<string>, files: set<string>) {
    && !Blank(dir) && c.rank == rank && c.dir == CleanSpec(TrimSpace(dir))
    && c.path in files && c.path in CommandPaths(dir, exts)
  }

  lemma CommandText(dir: string, ext: string)
    ensures dir + "/" + "orchestrator" + ext == dir + "/orchestrator" + ext
  {
  }

  lemma CommandPathReads(dir: string, ext: string)
    ensures CommandIn(dir, ext) == CommandPath(dir, ext)
  {
    CommandText(TrimSpace(dir), ext);
  }

  lemma CommandPathsRead(dir: string, exts: seq<string>)
    ensures CommandsIn(dir, exts) == CommandPaths(dir, exts)
  {
    forall e | 0 <= e < |exts| ensures CommandsIn(dir, exts)[e] == CommandPaths(dir, exts)[e] {
      CommandPathReads(dir, exts[e]);
    }
  }

  /** One more extension, with the candidate's texts as given values. */
  lemma FoundInStepReads(dir: string, rank: nat, exts: seq<string>, files: set<string>, last: Candidate)
    requires exts != [] && !Blank(dir) && last == Command(dir, rank, exts[|exts| - 1])
    ensures last.path == CommandIn(dir, exts[|exts| - 1]) && last.dir == CleanSpec(TrimSpace(dir)) && last.rank == rank
    ensures FoundIn(dir, rank, exts, files)
         == FoundIn(dir, rank, exts[..|exts| - 1], files) + if last.path in files then [last] else []
  {
  }

  /** The candidates of a directory, by the paths to look at. */
  function Existing(paths: seq<string>, files: set<string>, dir: string, rank: nat): seq<Candidate> {
    if paths == [] then []
    else
      var last := paths[|paths| - 1];
      Existing(paths[..|paths| - 1], files, dir, rank) + if last in files then [Candidate(last, dir, rank)] else []
  }

  lemma {:induction false} ExistingReads(
    paths: seq<string>, files: set<string>, dir: string, rank: nat, c: Candidate)
    ensures c in Existing(paths, files, dir, rank)
      <==> c.rank == rank && c.dir == dir && c.path in files && c.path in paths
  {
    if paths != [] {
      var n := |paths| - 1;
      ExistingReads(paths[..n], files, dir, rank, c);
      assert paths == paths[..n] + [paths[n]];
    }
  }

  /** What grows by one path at a time is what exists of the paths. */
  lemma {:induction false} GrowsToExisting(
    found: seq<seq<Candidate>>, paths: seq<string>, files: set<string>, dir: string, rank: nat, n: nat)
    requires n <= |paths| && |found| == |paths| + 1 && found[0] == []
    requires forall i :: 0 <= i < n ==>
      found[i + 1] == found[i] + if paths[i] in files then [Candidate(paths[i], dir, rank)] else []
    ensures found[n] == Existing(paths[..n], files, dir, rank)
  {
    if n > 0 {
      GrowsToExisting(found, paths, files, dir, rank, n - 1);
      assert paths[..n][..n - 1] == paths[..n - 1];
    }
  }

  /** One directory: every path whose file exists, with the directory and its place. */
  lemma FoundInReads(
    dir: string, rank: nat, exts: seq<string>, files: set<string>, cleanDir: string, paths: seq<string>)
    requires !Blank(dir) && cleanDir == CleanSpec(TrimSpace(dir)) && paths == CommandsIn(dir, exts)
    ensures FoundIn(dir, rank, exts, files) == Existing(paths, files, cleanDir, rank)
  {
    var found := seq(|exts| + 1, i requires 0 <= i <= |exts| => FoundIn(dir, rank, exts[..i], files));
    forall i | 0 <= i < |exts|
      ensures found[i + 1] == found[i] + if paths[i] in files then [Candidate(paths[i], cleanDir, rank)] else []
    {
      assert exts[..i + 1][..i] == exts[..i];
      FoundInStepReads(dir, rank, exts[..i + 1], files, Command(dir, rank, exts[i]));
    }
    GrowsToExisting(found, paths, files, cleanDir, rank, |exts|);
    assert exts[..|exts|] == exts && paths[..|exts|] == paths;
  }

  lemma FoundInExactly(dir: string, rank: nat, exts: seq<string>, files: set<string>, c: Candidate)
    ensures c in FoundIn(dir, rank, exts, files) <==> IsCommandIn(c, dir, rank, exts, files)
  {
    if !Blank(dir) {
      FoundInReads(dir, rank, exts, files, CleanSpec(TrimSpace(dir)), CommandsIn(dir, exts));
      ExistingReads(CommandsIn(dir, exts), files, CleanSpec(TrimSpace(dir)), rank, c);
      CommandPathsRead(dir, exts);
    }
  }

  /** The search reports exactly the existing command files, each with the entry it was found under. */
  lemma {:induction false} FoundReads(dirs: seq<string>, exts: seq<string>, files: set<string>, c: Candidate)
    ensures c in Found(dirs, exts, files)
      <==> c.rank < |dirs| && IsCommandIn(c, dirs[c.rank], c.rank, exts, files)
  {
    if dirs != [] {
      var n := |dirs| - 1;
      FoundReads(dirs[..n], exts, files, c);
      FoundInExactly(dirs[n], n, exts, files, c);
      RankIsChecked(c, dirs[n], n, exts, files);
    }
  }

  lemma RankIsChecked(c: Candidate, dir: string, rank: nat, exts: seq<string>, files: set<string>)
    ensures IsCommandIn(c, dir, rank, exts, files) ==> c.rank == rank
  {
  }

  /** Two candidates are the same command if their paths are, up to case. */
  lemma KeysRead(a: Candidate, b: Candidate)
    ensures CommandKey()(a) == CommandKey()(b) <==> ToLower(CleanSpec(a.path)) == ToLower(CleanSpec(b.path))
  {
  }

  // ----- the report -----

  lemma StatusReads(winner: string, targetBinary: string)
    ensures var r := StatusOf(winner, targetBinary);
      var known := TrimSpace(targetBinary) != "";
      var same := CleanSpec(TrimSpace(winner)) == CleanSpec(TrimSpace(targetBinary));
      && (r == Unknown <==> !known)
      && (r == Ok <==> known && same)
      && (r == Stale <==> known && !same && winner != "")
      && (r == Missing <==> known && !same && winner == "")
  {
    SamePathReads(winner, targetBinary);
  }

  lemma DetailReads(winner: string, targetBinary: string, targetExists: bool)
    ensures var r := DetailOf(winner, targetBinary, targetExists);
      && (r == TargetUnavailable <==> StatusOf(winner, targetBinary) == Unknown)
      && (r == ThisCheckout <==> StatusOf(winner, targetBinary) == Ok)
      && (r == OtherInstall <==> StatusOf(winner, targetBinary) == Stale && targetExists)
      && (r == OtherInstallTargetNotBuilt <==> StatusOf(winner, targetBinary) == Stale && !targetExists)
      && (r == NotFound <==> StatusOf(winner, targetBinary) == Missing && targetExists)
      && (r == TargetNotBuilt <==> StatusOf(winner, targetBinary) == Missing && !targetExists)
  {
  }

  /** The stale candidates are those that are not the target binary, and a path that is reported is
      clean. */
  lemma ReportReads(c: Candidate, targetBinary: string, path: string)
    ensures IsStale(targetBinary)(c) <==> CleanSpec(TrimSpace(c.path)) != CleanSpec(TrimSpace(targetBinary))
    ensures TrimSpace(path) == "" ==> CleanOptional(path) == ""
    ensures TrimSpace(path) != "" ==> CleanOptional(path) == CleanSpec(TrimSpace(path))
  {
    SamePathReads(c.path, targetBinary);
  }
}
