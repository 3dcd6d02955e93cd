/** The global launcher: repairing a PATH value, finding the orchestrator commands on it, and the
    status an inspection reports.  Paths and path lists take their Unix form; which files exist is
    an arbitrary set. */
module Launcher {
  import opened Text
  import opened Paths

  // ----- path lists -----

  /** One more character in front: a separator opens an entry, any other joins the first. */
  function Prefixed(c: char, parts: seq<string>): (r: seq<string>)
    requires parts != []
    ensures r != []
  {
    if c == ':' then [""] + parts else [[c] + parts[0]] + parts[1..]
  }

  /** `strings.Split(s, ":")`. */
  function SplitColons(s: string): (parts: seq<string>)
    ensures parts != []
  {
    if s == "" then [""] else Prefixed(s[0], SplitColons(s[1..]))
  }

  /** `filepath.SplitList`. */
  function SplitList(s: string): seq<string> {
    if s == "" then [] else SplitColons(s)
  }

  function JoinList(entries: seq<string>): string {
    if entries == [] then ""
    else if |entries| == 1 then entries[0]
    else entries[0] + ":" + JoinList(entries[1..])
  }

  lemma PrefixedConcat(c: char, a: seq<string>, b: seq<string>)
    requires a != []
    ensures Prefixed(c, a + b) == Prefixed(c, a) + b
  {
  }

  lemma SplitFirst(c: char, rest: string)
    ensures SplitColons([c] + rest) == Prefixed(c, SplitColons(rest))
  {
    assert ([c] + rest)[1..] == rest;
  }

  lemma {:induction false} SplitConcat(a: string, b: string)
    ensures SplitColons(a + ":" + b) == SplitColons(a) + SplitColons(b)
  {
    if a == "" {
      SplitFirst(':', b);
      assert a + ":" + b == [':'] + b;
    } else {
      SplitConcat(a[1..], b);
      SplitFirst(a[0], a[1..] + ":" + b);
      PrefixedConcat(a[0], SplitColons(a[1..]), SplitColons(b));
      assert a + ":" + b == [a[0]] + (a[1..] + ":" + b);
    }
  }

  lemma {:induction false} SplitOneEntry(s: string)
    requires ':' !in s
    ensures SplitColons(s) == [s]
  {
    if s != "" {
      assert ':' !in s[1..];
      SplitOneEntry(s[1..]);
      assert [s[0]] + s[1..] == s;
    }
  }

  lemma {:induction false} EntriesHaveNoColon(s: string)
    ensures forall i :: 0 <= i < |SplitColons(s)| ==> ':' !in SplitColons(s)[i]
  {
    if s != "" {
      EntriesHaveNoColon(s[1..]);
    }
  }

  ghost predicate NoColons(entries: seq<string>) {
    forall i :: 0 <= i < |entries| ==> ':' !in entries[i]
  }

  lemma {:induction false} SplitOfJoinList(entries: seq<string>)
    requires entries != [] && NoColons(entries)
    ensures SplitColons(JoinList(entries)) == entries
  {
    SplitOneEntry(entries[0]);
    if |entries| > 1 {
      SplitOfJoinList(entries[1..]);
      SplitConcat(entries[0], JoinList(entries[1..]));
      assert entries == [entries[0]] + entries[1..];
    }
  }

  // ----- repairing -----

  predicate SamePath(a: string, b: string) {
    var x, y := CleanSpec(TrimSpace(a)), CleanSpec(TrimSpace(b));
    x != "" && y != "" && x == y
  }

  predicate Keeps(entry: string, target: string) {
    !Blank(entry) && !SamePath(TrimSpace(entry), target)
  }

  function Keeper(target: string): string -> bool {
    entry => Keeps(entry, target)
  }

  function Flags(entries: seq<string>, keeps: string -> bool): (r: seq<bool>)
    ensures |r| == |entries| && forall i :: 0 <= i < |entries| ==> r[i] == keeps(entries[i])
  {
    seq(|entries|, i requires 0 <= i < |entries| => keeps(entries[i]))
  }

  /** The flagged texts, in order. */
  function Select(flags: seq<bool>, texts: seq<string>): seq<string>
    requires |flags| == |texts|
  {
    if texts == [] then []
    else
      var n := |texts| - 1;
      Select(flags[..n], texts[..n]) + if flags[n] then [texts[n]] else []
  }

  /** The entries that stay, trimmed, in order. */
  function Kept(entries: seq<string>, target: string): seq<string> {
    Select(Flags(entries, Keeper(target)), TrimAll(entries))
  }

  function Target(targetDir: string): string {
    CleanSpec(TrimSpace(targetDir))
  }

  function Repaired(pathValue: string, targetDir: string): string {
    JoinList([Target(targetDir)] + Kept(SplitList(pathValue), Target(targetDir)))
  }

  lemma CleanIsNotEmpty(p: string)
    ensures CleanSpec(p) != ""
  {
  }

  lemma SelectSnoc(flags: seq<bool>, texts: seq<string>, flag: bool, text: string)
    requires |flags| == |texts|
    ensures Select(flags + [flag], texts + [text]) == Select(flags, texts) + if flag then [text] else []
  {
    assert (flags + [flag])[..|texts|] == flags && (texts + [text])[..|texts|] == texts;
  }

  lemma {:induction false} SelectConcat(f: seq<bool>, t: seq<string>, g: seq<bool>, u: seq<string>)
    requires |f| == |t| && |g| == |u|
    ensures Select(f + g, t + u) == Select(f, t) + Select(g, u)
    decreases |u|
  {
    if u == [] {
      assert f + g == f && t + u == t;
    } else {
      var n := |u| - 1;
      SelectConcat(f, t, g[..n], u[..n]);
      SelectSnoc(f + g[..n], t + u[..n], g[n], u[n]);
      assert f + g[..n] + [g[n]] == f + g && t + u[..n] + [u[n]] == t + u;
    }
  }

  lemma FlagsConcat(a: seq<string>, b: seq<string>, keeps: string -> bool)
    ensures Flags(a + b, keeps) == Flags(a, keeps) + Flags(b, keeps)
  {
  }

  lemma TrimAllConcat(a: seq<string>, b: seq<string>)
    ensures TrimAll(a + b) == TrimAll(a) + TrimAll(b)
  {
  }

  lemma KeptConcat(a: seq<string>, b: seq<string>, target: string)
    ensures Kept(a + b, target) == Kept(a, target) + Kept(b, target)
  {
    SelectConcat(Flags(a, Keeper(target)), TrimAll(a), Flags(b, Keeper(target)), TrimAll(b));
    FlagsConcat(a, b, Keeper(target));
    TrimAllConcat(a, b);
  }

  lemma KeptOne(entry: string, target: string)
    ensures Kept([entry], target) == if Keeps(entry, target) then [TrimSpace(entry)] else []
  {
    SelectSnoc([], [], Keeps(entry, target), TrimSpace(entry));
    assert Flags([entry], Keeper(target)) == [] + [Keeps(entry, target)] && TrimAll([entry]) == [] + [TrimSpace(entry)];
  }

  /** One round of the repair loop. */
  lemma KeptStep(entries: seq<string>, i: nat, target: string)
    requires i < |entries|
    ensures Kept(entries[..i + 1], target)
         == Kept(entries[..i], target) + if Keeps(entries[i], target) then [TrimSpace(entries[i])] else []
  {
    assert entries[..i + 1] == entries[..i] + [entries[i]];
    KeptConcat(entries[..i], [entries[i]], target);
    KeptOne(entries[i], target);
  }

  lemma KeptWhole(entries: seq<string>, target: string)
    ensures Kept(entries[..0], target) == [] && Kept(entries[..|entries|], target) == Kept(entries, target)
  {
    assert entries[..|entries|] == entries;
  }

  method RepairedUserPath(pathValue: string, targetDir: string) returns (next: string, changed: bool)
    ensures next == Repaired(pathValue, targetDir) && changed == (next != pathValue)
  {
    var target := Clean(TrimSpace(targetDir));
    CleanIsNotEmpty(TrimSpace(targetDir));
    var entries := SplitList(pathValue);
    var kept := KeepEntries(entries, target);
    next := JoinList([target] + kept);
    changed := next != pathValue;
  }

  /** The repair loop. */
  method KeepEntries(entries: seq<string>, target: string) returns (kept: seq<string>)
    ensures kept == Kept(entries, target)
  {
    kept := [];
    KeptWhole(entries, target);
    for i := 0 to |entries|
      invariant kept == Kept(entries[..i], target)
    {
      KeptStep(entries, i, target);
      var trimmed := TrimSpace(entries[i]);
      if trimmed == "" || SamePath(trimmed, target) {
        continue;
      }
      kept := kept + [trimmed];
    }
  }

  /** `kept` are the flagged texts, in order, at the positions `at`. */
  ghost predicate Picks(flags: seq<bool>, texts: seq<string>, at: seq<nat>, kept: seq<string>) {
    && |flags| == |texts| && |at| == |kept|
    && (forall k :: 0 <= k < |at| ==> at[k] < |texts| && kept[k] == texts[at[k]])
    && (forall j, k :: 0 <= j < k < |at| ==> at[j] < at[k])
    && (forall i :: 0 <= i < |flags| ==> (i in at <==> flags[i]))
  }

  lemma PicksOneMore(flags: seq<bool>, texts: seq<string>, at: seq<nat>, kept: seq<string>, flag: bool, text: string)
    requires Picks(flags, texts, at, kept)
    ensures flag ==> Picks(flags + [flag], texts + [text], at + [|flags|], kept + [text])
    ensures !flag ==> Picks(flags + [flag], texts + [text], at, kept)
  {
    assert forall k :: 0 <= k < |at| ==> at[k] in at;
  }

  lemma {:induction false} SelectInOrder(flags: seq<bool>, texts: seq<string>) returns (at: seq<nat>)
    requires |flags| == |texts|
    ensures Picks(flags, texts, at, Select(flags, texts))
  {
    at := [];
    if texts != [] {
      var n := |texts| - 1;
      at := SelectInOrder(flags[..n], texts[..n]);
      PicksOneMore(flags[..n], texts[..n], at, Select(flags[..n], texts[..n]), flags[n], texts[n]);
      assert flags == flags[..n] + [flags[n]] && texts == texts[..n] + [texts[n]];
      if flags[n] {
        at := at + [n];
      }
    }
  }

  /** What stays, as a choice of positions: strictly increasing, and exactly those whose entry is
      not blank and not the target. */
  lemma KeptInOrder(entries: seq<string>, target: string) returns (at: seq<nat>)
    ensures Picks(Flags(entries, Keeper(target)), TrimAll(entries), at, Kept(entries, target))
  {
    at := SelectInOrder(Flags(entries, Keeper(target)), TrimAll(entries));
  }

  lemma {:induction false} SelectAll(flags: seq<bool>, texts: seq<string>)
    requires |flags| == |texts| && forall i :: 0 <= i < |flags| ==> flags[i]
    ensures Select(flags, texts) == texts
  {
    if texts != [] {
      var n := |texts| - 1;
      SelectAll(flags[..n], texts[..n]);
      assert texts == texts[..n] + [texts[n]];
    }
  }

  lemma KeepsTrimmed(entry: string, target: string)
    requires Keeps(entry, target)
    ensures Keeps(TrimSpace(entry), target) && TrimSpace(TrimSpace(entry)) == TrimSpace(entry)
  {
  }

  lemma KeptIsKeptAgain(entries: seq<string>, target: string)
    ensures Kept(Kept(entries, target), target) == Kept(entries, target)
  {
    var kept := Kept(entries, target);
    var at := KeptInOrder(entries, target);
    forall k | 0 <= k < |kept| ensures Flags(kept, Keeper(target))[k] && TrimAll(kept)[k] == kept[k] {
      assert at[k] in at;
      KeepsTrimmed(entries[at[k]], target);
    }
    assert TrimAll(kept) == kept;
    SelectAll(Flags(kept, Keeper(target)), kept);
  }

  lemma {:induction false} TrimKeepsNoColon(s: string)
    requires ':' !in s
    ensures ':' !in TrimSpace(s)
    decreases |s|
  {
    if !Trimmed(s) {
      TrimKeepsNoColon(if IsSpace(s[0]) then s[1..] else s[..|s| - 1]);
    }
  }

  lemma KeptHasNoColons(entries: seq<string>, target: string)
    requires NoColons(entries)
    ensures NoColons(Kept(entries, target))
  {
    var kept := Kept(entries, target);
    var at := KeptInOrder(entries, target);
    forall k | 0 <= k < |kept| ensures ':' !in kept[k] {
      TrimKeepsNoColon(entries[at[k]]);
    }
  }

  lemma ListHasNoColons(pathValue: string)
    ensures NoColons(SplitList(pathValue))
  {
    EntriesHaveNoColon(pathValue);
  }

  /** The repaired list begins with the target, as written or, if it holds separators, in the
      parts those cut it into, and goes on with what is kept. */
  lemma RepairedEntries(pathValue: string, targetDir: string)
    ensures var target := Target(targetDir);
      SplitList(Repaired(pathValue, targetDir)) == SplitColons(target) + Kept(SplitList(pathValue), target)
  {
    var target := Target(targetDir);
    var kept := Kept(SplitList(pathValue), target);
    CleanIsNotEmpty(TrimSpace(targetDir));
    ListHasNoColons(pathValue);
    KeptHasNoColons(SplitList(pathValue), target);
    if kept == [] {
      assert JoinList([target] + kept) == target;
    } else {
      SplitOfJoinList(kept);
      SplitConcat(target, JoinList(kept));
      assert ([target] + kept)[1..] == kept;
      assert JoinList([target] + kept) == target + ":" + JoinList(kept);
    }
  }

  /** With no separator in it, the target is the first entry, and the others that are not blank
      and not the target follow in their old order. */
  lemma TargetComesFirst(pathValue: string, targetDir: string)
    requires ':' !in Target(targetDir)
    ensures SplitList(Repaired(pathValue, targetDir))
         == [Target(targetDir)] + Kept(SplitList(pathValue), Target(targetDir))
  {
    RepairedEntries(pathValue, targetDir);
    SplitOneEntry(Target(targetDir));
  }

  lemma {:induction false} JoinListGrows(head: string, more: seq<string>, tail: seq<string>)
    requires more != []
    ensures |JoinList([head] + more + tail)| > |JoinList([head] + tail)|
    decreases |more|
  {
    var all := [head] + more + tail;
    assert all[1..] == [more[0]] + more[1..] + tail;
    if |more| == 1 {
      assert [more[0]] + more[1..] + tail == [more[0]] + tail;
      JoinListLength(head, [more[0]] + tail);
      JoinListLength(head, tail);
      JoinListLength(more[0], tail);
    } else {
      JoinListGrows(more[0], more[1..], tail);
      JoinListLength(head, [more[0]] + more[1..] + tail);
      JoinListLength(head, tail);
      JoinListLength(more[0], tail);
      assert [head] + ([more[0]] + more[1..] + tail) == all;
    }
  }

  lemma JoinListLength(head: string, tail: seq<string>)
    ensures |JoinList([head] + tail)| == |head| + if tail == [] then 0 else 1 + |JoinList(tail)|
  {
    assert ([head] + tail)[1..] == tail;
  }

  /** No entry stays. */
  ghost predicate NoneStays(entries: seq<string>, target: string) {
    forall i :: 0 <= i < |entries| ==> !Keeps(entries[i], target)
  }

  lemma NothingKept(entries: seq<string>, target: string)
    ensures Kept(entries, target) == [] <==> NoneStays(entries, target)
  {
    var at := KeptInOrder(entries, target);
    if Kept(entries, target) != [] {
      assert at[0] in at && Flags(entries, Keeper(target))[at[0]];
    }
    forall i | 0 <= i < |entries| && Keeps(entries[i], target) ensures at != [] {
      assert Flags(entries, Keeper(target))[i] && i in at;
    }
  }

  lemma RepairedTwice(pathValue: string, targetDir: string)
    ensures var target := Target(targetDir);
      Repaired(Repaired(pathValue, targetDir), targetDir)
      == JoinList([target] + Kept(SplitColons(target), target) + Kept(SplitList(pathValue), target))
  {
    var target := Target(targetDir);
    var kept := Kept(SplitList(pathValue), target);
    RepairedEntries(pathValue, targetDir);
    KeptConcat(SplitColons(target), kept, target);
    KeptIsKeptAgain(SplitList(pathValue), target);
    assert [target] + (Kept(SplitColons(target), target) + kept) == [target] + Kept(SplitColons(target), target) + kept;
  }

  /** Repairing a second time changes nothing exactly when every part of the target, read as an
      entry, is blank or the target itself: always so for a target without the separator. */
  lemma RepairIsIdempotent(pathValue: string, targetDir: string)
    ensures var once := Repaired(pathValue, targetDir);
      Repaired(once, targetDir) == once <==> NoneStays(SplitColons(Target(targetDir)), Target(targetDir))
  {
    var target := Target(targetDir);
    var more, kept := Kept(SplitColons(target), target), Kept(SplitList(pathValue), target);
    RepairedTwice(pathValue, targetDir);
    NothingKept(SplitColons(target), target);
    if more == [] {
      assert [target] + more + kept == [target] + kept;
    } else {
      JoinListGrows(target, more, kept);
    }
  }

  lemma PlainTargetIsNotKept(targetDir: string)
    requires ':' !in Target(targetDir)
    ensures SplitColons(Target(targetDir)) == [Target(targetDir)] && !Keeps(Target(targetDir), Target(targetDir))
  {
    SplitOneEntry(Target(targetDir));
    CleanIsNotEmpty(TrimSpace(Target(targetDir)));
  }

  // ----- finding commands -----

  datatype Candidate = Candidate(path: string, dir: string, rank: nat)

  function CommandIn(dir: string, ext: string): string {
    CleanSpec(TrimSpace(dir) + "/" + "orchestrator" + ext)
  }

  function Command(entry: string, rank: nat, ext: string): Candidate {
    Candidate(CommandIn(entry, ext), CleanSpec(TrimSpace(entry)), rank)
  }

  /** Every existing command of one directory, in extension order. */
  function FoundIn(dir: string, rank: nat, exts: seq<string>, files: set<string>): seq<Candidate> {
    if exts == [] || Blank(dir) then []
    else
      var before, ext := FoundIn(dir, rank, exts[..|exts| - 1], files), exts[|exts| - 1];
      if CommandIn(dir, ext) in files then before + [Command(dir, rank, ext)] else before
  }

  function Found(dirs: seq<string>, exts: seq<string>, files: set<string>): seq<Candidate> {
    if dirs == [] then []
    else Found(dirs[..|dirs| - 1], exts, files) + FoundIn(dirs[|dirs| - 1], |dirs| - 1, exts, files)
  }

  function Key(path: string): string {
    ToLower(CleanSpec(path))
  }

  function CommandKey(): Candidate -> string {
    (c: Candidate) => Key(c.path)
  }

  function KeysOf(found: seq<Candidate>, key: Candidate -> string): set<string> {
    set c | c in found :: key(c)
  }

  function AddFirst(out: seq<Candidate>, c: Candidate, key: Candidate -> string): seq<Candidate> {
    if key(c) in KeysOf(out, key) then out else out + [c]
  }

  /** The first candidate of every key. */
  function FirstOfEach(found: seq<Candidate>, key: Candidate -> string): seq<Candidate> {
    if found == [] then []
    else
      AddFirst(FirstOfEach(found[..|found| - 1], key), found[|found| - 1], key)
  }

  lemma FoundStep(dirs: seq<string>, rank: nat, exts: seq<string>, files: set<string>)
    requires rank < |dirs|
    ensures Found(dirs[..rank + 1], exts, files)
         == Found(dirs[..rank], exts, files) + FoundIn(dirs[rank], rank, exts, files)
    ensures Blank(dirs[rank]) ==> Found(dirs[..rank + 1], exts, files) == Found(dirs[..rank], exts, files)
  {
    assert dirs[..rank + 1][..rank] == dirs[..rank];
  }

  method FindOrchestratorCommands(pathValue: string, exts: seq<string>, files: set<string>)
    returns (out: seq<Candidate>)
    ensures out == FirstOfEach(Found(SplitList(pathValue), exts, files), CommandKey())
  {
    var seen: set<string> := {};
    out := [];
    var dirs := SplitList(pathValue);
    for rank := 0 to |dirs|
      invariant out == FirstOfEach(Found(dirs[..rank], exts, files), CommandKey())
      invariant seen == KeysOf(out, CommandKey())
    {
      FoundStep(dirs, rank, exts, files);
      if TrimSpace(dirs[rank]) == "" {
        continue;
      }
      out, seen := FindInDirectory(dirs[rank], rank, exts, files, out, seen, Found(dirs[..rank], exts, files));
    }
    assert dirs[..|dirs|] == dirs;
  }

  /** The inner loop: one directory, all extensions. */
  method FindInDirectory(entry: string, rank: nat, exts: seq<string>, files: set<string>,
                         found: seq<Candidate>, known: set<string>, ghost earlier: seq<Candidate>)
    returns (out: seq<Candidate>, seen: set<string>)
    requires !Blank(entry) && found == FirstOfEach(earlier, CommandKey()) && known == KeysOf(found, CommandKey())
    ensures out == FirstOfEach(earlier + FoundIn(entry, rank, exts, files), CommandKey())
    ensures seen == KeysOf(out, CommandKey())
  {
    out, seen := found, known;
    assert earlier + [] == earlier;
    for e := 0 to |exts|
      invariant out == FirstOfEach(earlier + FoundIn(entry, rank, exts[..e], files), CommandKey())
      invariant seen == KeysOf(out, CommandKey())
    {
      FoundInStep(entry, rank, exts, e, files, earlier);
      out, seen := TryCommand(entry, rank, exts[e], files, out, seen);
    }
    assert exts[..|exts|] == exts;
  }

  /** The body of the inner loop: one extension. */
  method TryCommand(
    entry: string, rank: nat, ext: string, files: set<string>, found: seq<Candidate>, known: set<string>)
    returns (out: seq<Candidate>, seen: set<string>)
    requires known == KeysOf(found, CommandKey())
    ensures out
         == if CommandIn(entry, ext) in files then AddFirst(found, Command(entry, rank, ext), CommandKey()) else found
    ensures seen == KeysOf(out, CommandKey())
  {
    out, seen := found, known;
    var cleanDir := TrimSpace(entry);
    var path := Clean(cleanDir + "/" + "orchestrator" + ext);
    if path !in files {
      return;
    }
    var cleaned := Clean(path);
    CleanIsIdempotent(cleanDir + "/" + "orchestrator" + ext);
    var key := ToLower(cleaned);
    if key in seen {
      return;
    }
    var dir := Clean(cleanDir);
    KeysOfSnoc(out, Candidate(cleaned, dir, rank), CommandKey());
    seen := seen + {key};
    out := out + [Candidate(cleaned, dir, rank)];
  }

  lemma FoundInStep(dir: string, rank: nat, exts: seq<string>, e: nat, files: set<string>, earlier: seq<Candidate>)
    requires !Blank(dir) && e < |exts|
    ensures FirstOfEach(earlier + FoundIn(dir, rank, exts[..e + 1], files), CommandKey())
         == var before := FirstOfEach(earlier + FoundIn(dir, rank, exts[..e], files), CommandKey());
            if CommandIn(dir, exts[e]) in files then AddFirst(before, Command(dir, rank, exts[e]), CommandKey())
            else before
  {
    assert exts[..e + 1][..e] == exts[..e];
    AddAfter(earlier, FoundIn(dir, rank, exts[..e], files), Command(dir, rank, exts[e]), CommandKey());
  }

  lemma AddAfter(earlier: seq<Candidate>, before: seq<Candidate>, c: Candidate, key: Candidate -> string)
    ensures FirstOfEach(earlier + (before + [c]), key) == AddFirst(FirstOfEach(earlier + before, key), c, key)
  {
    FirstOfEachSnoc(earlier + before, c, key);
    assert earlier + (before + [c]) == earlier + before + [c];
  }

  lemma FirstOfEachSnoc(found: seq<Candidate>, last: Candidate, key: Candidate -> string)
    ensures FirstOfEach(found + [last], key) == AddFirst(FirstOfEach(found, key), last, key)
  {
    assert (found + [last])[..|found|] == found;
  }

  lemma KeysOfSnoc(found: seq<Candidate>, last: Candidate, key: Candidate -> string)
    ensures KeysOf(found + [last], key) == KeysOf(found, key) + {key(last)}
  {
    assert forall c :: c in found + [last] <==> c in found || c == last;
  }

  /** The candidates `out` are those of `found` at the increasing positions `at`. */
  ghost predicate Positions(found: seq<Candidate>, out: seq<Candidate>, at: seq<nat>) {
    && |at| == |out|
    && (forall k :: 0 <= k < |at| ==> at[k] < |found| && out[k] == found[at[k]])
    && (forall j, k :: 0 <= j < k < |at| ==> at[j] < at[k])
  }

  lemma PositionsOneMore(found: seq<Candidate>, out: seq<Candidate>, at: seq<nat>, c: Candidate)
    requires Positions(found, out, at)
    ensures Positions(found + [c], out, at) && Positions(found + [c], out + [c], at + [|found|])
  {
  }

  /** Nothing before a chosen position has its key. */
  ghost predicate FirstOnes(found: seq<Candidate>, at: seq<nat>, key: Candidate -> string) {
    forall k, j :: 0 <= k < |at| && 0 <= j < at[k] < |found| ==> key(found[j]) != key(found[at[k]])
  }

  lemma FirstOnesOneMore(found: seq<Candidate>, at: seq<nat>, c: Candidate, key: Candidate -> string)
    requires FirstOnes(found, at, key) && forall k :: 0 <= k < |at| ==> at[k] < |found|
    ensures FirstOnes(found + [c], at, key)
    ensures key(c) !in KeysOf(found, key) ==> FirstOnes(found + [c], at + [|found|], key)
  {
    assert forall i :: 0 <= i < |found| ==> (found + [c])[i] == found[i] && key(found[i]) in KeysOf(found, key);
  }

  lemma AddFirstKeys(out: seq<Candidate>, c: Candidate, key: Candidate -> string)
    ensures KeysOf(AddFirst(out, c, key), key) == KeysOf(out, key) + {key(c)}
  {
    KeysOfSnoc(out, c, key);
  }

  /** The next choice of positions: the new candidate's, unless its key is known. */
  function NextAt(
    found: seq<Candidate>, out: seq<Candidate>, at: seq<nat>, c: Candidate, key: Candidate -> string): seq<nat> {
    if key(c) in KeysOf(out, key) then at else at + [|found|]
  }

  lemma StepKeepsPositions(
    found: seq<Candidate>, out: seq<Candidate>, at: seq<nat>, c: Candidate, key: Candidate -> string)
    requires Positions(found, out, at)
    ensures Positions(found + [c], AddFirst(out, c, key), NextAt(found, out, at, c, key))
  {
    PositionsOneMore(found, out, at, c);
  }

  lemma StepKeepsFirstOnes(
    found: seq<Candidate>, out: seq<Candidate>, at: seq<nat>, c: Candidate, key: Candidate -> string)
    requires Positions(found, out, at) && FirstOnes(found, at, key) && KeysOf(out, key) == KeysOf(found, key)
    ensures FirstOnes(found + [c], NextAt(found, out, at, c, key), key)
  {
    FirstOnesOneMore(found, at, c, key);
  }

  lemma SearchStep(found: seq<Candidate>, out: seq<Candidate>, at: seq<nat>, c: Candidate, key: Candidate -> string)
    requires Positions(found, out, at) && FirstOnes(found, at, key) && KeysOf(out, key) == KeysOf(found, key)
    ensures var next := NextAt(found, out, at, c, key);
      Positions(found + [c], AddFirst(out, c, key), next) && FirstOnes(found + [c], next, key)
    ensures KeysOf(AddFirst(out, c, key), key) == KeysOf(found + [c], key)
  {
    StepKeepsPositions(found, out, at, c, key);
    StepKeepsFirstOnes(found, out, at, c, key);
    KeysOfSnoc(found, c, key);
    AddFirstKeys(out, c, key);
  }

  lemma LastSplitsOff(found: seq<Candidate>)
    requires found != []
    ensures found[..|found| - 1] + [found[|found| - 1]] == found
  {
  }

  /** The search keeps, in order, exactly the first candidate of every key. */
  lemma {:induction false} SearchKeepsFirsts(found: seq<Candidate>, key: Candidate -> string) returns (at: seq<nat>)
    ensures Positions(found, FirstOfEach(found, key), at) && FirstOnes(found, at, key)
    ensures KeysOf(FirstOfEach(found, key), key) == KeysOf(found, key)
  {
    at := [];
    if found != [] {
      var before, last := found[..|found| - 1], found[|found| - 1];
      at := SearchKeepsFirsts(before, key);
      SearchStep(before, FirstOfEach(before, key), at, last, key);
      at := NextAt(before, FirstOfEach(before, key), at, last, key);
      FirstOfEachSnoc(before, last, key);
      LastSplitsOff(found);
    }
  }

  // ----- inspecting -----

  datatype Status = Ok | Stale | Missing | Unknown

  /** The sentence that goes with the status. */
  datatype Detail =
    | ThisCheckout
    | OtherInstall
    | OtherInstallTargetNotBuilt
    | NotFound
    | TargetNotBuilt
    | TargetUnavailable

  datatype Inspection = Inspection(
    status: Status, detail: Detail, processWinner: string, userWinner: string,
    processCandidates: seq<Candidate>, userCandidates: seq<Candidate>, staleCandidates: seq<Candidate>,
    desiredUserPath: string, userPathChanged: bool)

  function Winner(found: seq<Candidate>): string {
    if found == [] then "" else found[0].path
  }

  function WinnerOn(pathValue: string, exts: seq<string>, files: set<string>): string {
    Winner(FirstOfEach(Found(SplitList(pathValue), exts, files), CommandKey()))
  }

  function StatusOf(winner: string, targetBinary: string): Status {
    if Blank(targetBinary) then Unknown
    else if SamePath(winner, targetBinary) then Ok
    else if winner != "" then Stale
    else Missing
  }

  function DetailOf(winner: string, targetBinary: string, targetExists: bool): Detail {
    match StatusOf(winner, targetBinary)
    case Unknown => TargetUnavailable
    case Ok => ThisCheckout
    case Stale => if targetExists then OtherInstall else OtherInstallTargetNotBuilt
    case Missing => if targetExists then NotFound else TargetNotBuilt
  }

  function CleanOptional(path: string): string {
    if Blank(path) then "" else CleanSpec(TrimSpace(path))
  }

  function IsStale(targetBinary: string): Candidate -> bool {
    (c: Candidate) => !SamePath(c.path, targetBinary)
  }

  /** The candidates that pass, in order. */
  function Filtered(candidates: seq<Candidate>, keeps: Candidate -> bool): seq<Candidate> {
    if candidates == [] then []
    else
      var last := candidates[|candidates| - 1];
      Filtered(candidates[..|candidates| - 1], keeps) + if keeps(last) then [last] else []
  }

  /** `inspectGlobalLauncherFromPaths`. */
  method InspectGlobalLauncher(processPath: string, userPath: string, targetDir: string, targetBinary: string,
                               targetExists: bool, exts: seq<string>, files: set<string>)
    returns (r: Inspection)
    ensures var winner := WinnerOn(processPath, exts, files);
      && r.status == StatusOf(winner, targetBinary) && r.detail == DetailOf(winner, targetBinary, targetExists)
      && r.processWinner == CleanOptional(winner)
    ensures r.processCandidates == FirstOfEach(Found(SplitList(processPath), exts, files), CommandKey())
    ensures r.staleCandidates == Filtered(r.processCandidates, IsStale(targetBinary))
    ensures r.userCandidates == FirstOfEach(Found(SplitList(userPath), exts, files), CommandKey())
    ensures r.userWinner == CleanOptional(WinnerOn(userPath, exts, files))
    ensures r.desiredUserPath == if Blank(targetDir) then userPath else Repaired(userPath, targetDir)
    ensures r.userPathChanged <==> r.desiredUserPath != userPath
  {
    var processCandidates := FindOrchestratorCommands(processPath, exts, files);
    var userCandidates := FindOrchestratorCommands(userPath, exts, files);
    var processWinner := if |processCandidates| > 0 then processCandidates[0].path else "";
    var userWinner := if |userCandidates| > 0 then userCandidates[0].path else "";
    var desiredUserPath, userPathChanged := userPath, false;
    if TrimSpace(targetDir) != "" {
      desiredUserPath, userPathChanged := RepairedUserPath(userPath, targetDir);
    }
    var status, detail := Judge(processWinner, targetBinary, targetExists);
    var stale := StaleAmong(processCandidates, targetBinary);
    r := Inspection(status, detail, CleanOptional(processWinner), CleanOptional(userWinner),
      processCandidates, userCandidates, stale, desiredUserPath, userPathChanged);
  }

  method Judge(winner: string, targetBinary: string, targetExists: bool) returns (status: Status, detail: Detail)
    ensures status == StatusOf(winner, targetBinary) && detail == DetailOf(winner, targetBinary, targetExists)
  {
    status, detail := Missing, NotFound;
    if SamePath(winner, targetBinary) {
      status, detail := Ok, ThisCheckout;
    } else if winner != "" {
      status, detail := Stale, OtherInstall;
      if !targetExists && TrimSpace(targetBinary) != "" {
        detail := OtherInstallTargetNotBuilt;
      }
    } else if !targetExists && TrimSpace(targetBinary) != "" {
      status, detail := Missing, TargetNotBuilt;
    }
    if TrimSpace(targetBinary) == "" {
      status, detail := Unknown, TargetUnavailable;
    }
  }

  method StaleAmong(candidates: seq<Candidate>, targetBinary: string) returns (stale: seq<Candidate>)
    ensures stale == Filtered(candidates, IsStale(targetBinary))
  {
    stale := [];
    for i := 0 to |candidates|
      invariant stale == Filtered(candidates[..i], IsStale(targetBinary))
    {
      assert candidates[..i + 1][..i] == candidates[..i];
      if !SamePath(candidates[i].path, targetBinary) {
        stale := stale + [candidates[i]];
      }
    }
    assert candidates[..|candidates|] == candidates;
  }

  lemma FilteredSnoc(candidates: seq<Candidate>, last: Candidate, keeps: Candidate -> bool)
    ensures Filtered(candidates + [last], keeps) == Filtered(candidates, keeps) + if keeps(last) then [last] else []
  {
    assert (candidates + [last])[..|candidates|] == candidates;
  }

  /** The winner is in front of the stale ones if it passes as stale; then come the others that do. */
  lemma {:induction false} FilteredCons(winner: Candidate, others: seq<Candidate>, keeps: Candidate -> bool)
    ensures Filtered([winner] + others, keeps) == (if keeps(winner) then [winner] else []) + Filtered(others, keeps)
    decreases |others|
  {
    if others == [] {
      FilteredSnoc([], winner, keeps);
      assert [winner] + others == [] + [winner];
    } else {
      var n := |others| - 1;
      FilteredCons(winner, others[..n], keeps);
      FilteredSnoc([winner] + others[..n], others[n], keeps);
      assert [winner] + others[..n] + [others[n]] == [winner] + others;
    }
  }

  lemma {:induction false} FirstStaysFirst(found: seq<Candidate>, key: Candidate -> string)
    ensures Winner(FirstOfEach(found, key)) == Winner(found)
    ensures FirstOfEach(found, key) == [] <==> found == []
  {
    if found != [] {
      FirstStaysFirst(found[..|found| - 1], key);
    }
  }

  /** The first of some paths that exists, or the empty string. */
  function FirstIn(paths: seq<string>, files: set<string>): string {
    if paths == [] then ""
    else
      var before, last := FirstIn(paths[..|paths| - 1], files), paths[|paths| - 1];
      if before != "" then before else if last in files then last else ""
  }

  function CommandsIn(dir: string, exts: seq<string>): (r: seq<string>)
    ensures |r| == |exts| && forall i :: 0 <= i < |exts| ==> r[i] == CommandIn(dir, exts[i])
  {
    seq(|exts|, i requires 0 <= i < |exts| => CommandIn(dir, exts[i]))
  }

  /** The first existing command of one directory, or the empty string. */
  function FirstExisting(dir: string, exts: seq<string>, files: set<string>): string {
    FirstIn(CommandsIn(dir, exts), files)
  }

  lemma CommandIsNotEmpty(dir: string, ext: string)
    ensures CommandIn(dir, ext) != ""
  {
    CleanIsNotEmpty(TrimSpace(dir) + "/" + "orchestrator" + ext);
  }

  lemma {:induction false} FirstInMeans(paths: seq<string>, files: set<string>, k: nat)
    requires k < |paths| && paths[k] != "" && paths[k] in files
    requires forall j :: 0 <= j < k ==> paths[j] !in files
    ensures FirstIn(paths, files) == paths[k]
  {
    var before := paths[..|paths| - 1];
    if k < |before| {
      FirstInMeans(before, files, k);
    } else {
      NoneIn(before, files);
    }
  }

  lemma {:induction false} NoneIn(paths: seq<string>, files: set<string>)
    requires forall j :: 0 <= j < |paths| ==> paths[j] !in files
    ensures FirstIn(paths, files) == ""
  {
    if paths != [] {
      NoneIn(paths[..|paths| - 1], files);
    }
  }

  lemma FirstExistingMeans(dir: string, exts: seq<string>, files: set<string>, k: nat)
    requires k < |exts| && CommandsIn(dir, exts)[k] in files
    requires forall j :: 0 <= j < k ==> CommandsIn(dir, exts)[j] !in files
    ensures FirstExisting(dir, exts, files) == CommandsIn(dir, exts)[k]
  {
    CommandIsNotEmpty(dir, exts[k]);
    FirstInMeans(CommandsIn(dir, exts), files, k);
  }

  lemma FirstExistingUnrolls(dir: string, exts: seq<string>, files: set<string>)
    requires exts != []
    ensures var before := FirstExisting(dir, exts[..|exts| - 1], files); var last := CommandIn(dir, exts[|exts| - 1]);
      FirstExisting(dir, exts, files) == if before != "" then before else if last in files then last else ""
  {
    assert CommandsIn(dir, exts)[..|exts| - 1] == CommandsIn(dir, exts[..|exts| - 1]);
  }

  lemma {:induction false} WinnerInDirectory(dir: string, rank: nat, exts: seq<string>, files: set<string>)
    requires !Blank(dir)
    ensures Winner(FoundIn(dir, rank, exts, files)) == FirstExisting(dir, exts, files)
    ensures FoundIn(dir, rank, exts, files) == [] <==> FirstExisting(dir, exts, files) == ""
  {
    if exts != [] {
      WinnerInDirectory(dir, rank, exts[..|exts| - 1], files);
      FirstExistingUnrolls(dir, exts, files);
      CommandIsNotEmpty(dir, exts[|exts| - 1]);
    }
  }

  lemma WinnerOfConcat(a: seq<Candidate>, b: seq<Candidate>)
    ensures Winner(a + b) == if a == [] then Winner(b) else Winner(a)
    ensures a + b == [] <==> a == [] && b == []
  {
    if a == [] {
      assert a + b == b;
    }
  }

  /** The first text that is not empty, or the empty string. */
  function FirstNonEmpty(texts: seq<string>): string {
    if texts == [] then "" else if texts[0] != "" then texts[0] else FirstNonEmpty(texts[1..])
  }

  /** For each directory its first existing command, if it has any. */
  function CommandOfEach(dirs: seq<string>, exts: seq<string>, files: set<string>): (r: seq<string>)
    ensures |r| == |dirs|
    ensures forall i :: 0 <= i < |dirs| ==> r[i] == CommandOf(dirs[i], exts, files)
  {
    seq(|dirs|, i requires 0 <= i < |dirs| => CommandOf(dirs[i], exts, files))
  }

  function CommandOf(dir: string, exts: seq<string>, files: set<string>): string {
    if Blank(dir) then "" else FirstExisting(dir, exts, files)
  }

  /** The command a shell would find: the first existing one of the first directory that has any. */
  function FirstCommand(dirs: seq<string>, exts: seq<string>, files: set<string>): string {
    FirstNonEmpty(CommandOfEach(dirs, exts, files))
  }

  lemma {:induction false} FirstNonEmptyConcat(a: seq<string>, b: seq<string>)
    ensures FirstNonEmpty(a + b) == if FirstNonEmpty(a) != "" then FirstNonEmpty(a) else FirstNonEmpty(b)
  {
    if a == [] {
      assert a + b == b;
    } else {
      assert (a + b)[1..] == a[1..] + b;
      FirstNonEmptyConcat(a[1..], b);
    }
  }

  lemma FirstNonEmptyOne(text: string)
    ensures FirstNonEmpty([text]) == text
  {
    assert [text][1..] == [];
  }

  lemma CommandOfEachConcat(a: seq<string>, b: seq<string>, exts: seq<string>, files: set<string>)
    ensures CommandOfEach(a + b, exts, files) == CommandOfEach(a, exts, files) + CommandOfEach(b, exts, files)
  {
  }

  lemma FirstCommandConcat(a: seq<string>, b: seq<string>, exts: seq<string>, files: set<string>)
    ensures FirstCommand(a + b, exts, files)
         == if FirstCommand(a, exts, files) != "" then FirstCommand(a, exts, files) else FirstCommand(b, exts, files)
  {
    CommandOfEachConcat(a, b, exts, files);
    FirstNonEmptyConcat(CommandOfEach(a, exts, files), CommandOfEach(b, exts, files));
  }

  lemma FirstCommandOfOne(dir: string, exts: seq<string>, files: set<string>)
    ensures FirstCommand([dir], exts, files) == CommandOf(dir, exts, files)
  {
    assert CommandOfEach([dir], exts, files) == [CommandOf(dir, exts, files)];
    FirstNonEmptyOne(CommandOf(dir, exts, files));
  }

  lemma WinnerOfOne(dir: string, rank: nat, exts: seq<string>, files: set<string>)
    ensures Winner(FoundIn(dir, rank, exts, files)) == CommandOf(dir, exts, files)
    ensures FoundIn(dir, rank, exts, files) == [] <==> CommandOf(dir, exts, files) == ""
  {
    if !Blank(dir) {
      WinnerInDirectory(dir, rank, exts, files);
    }
  }

  lemma FirstCommandSnoc(dirs: seq<string>, dir: string, exts: seq<string>, files: set<string>)
    ensures FirstCommand(dirs + [dir], exts, files)
         == if FirstCommand(dirs, exts, files) != "" then FirstCommand(dirs, exts, files)
            else CommandOf(dir, exts, files)
  {
    FirstCommandConcat(dirs, [dir], exts, files);
    FirstCommandOfOne(dir, exts, files);
  }

  /** The search finds what a shell would. */
  lemma {:induction false} WinnerIsFirstCommand(dirs: seq<string>, exts: seq<string>, files: set<string>)
    ensures Winner(Found(dirs, exts, files)) == FirstCommand(dirs, exts, files)
    ensures Found(dirs, exts, files) == [] <==> FirstCommand(dirs, exts, files) == ""
  {
    if dirs != [] {
      var n := |dirs| - 1;
      WinnerIsFirstCommand(dirs[..n], exts, files);
      WinnerOfOne(dirs[n], n, exts, files);
      WinnerOfConcat(Found(dirs[..n], exts, files), FoundIn(dirs[n], n, exts, files));
      FirstCommandSnoc(dirs[..n], dirs[n], exts, files);
      assert dirs == dirs[..n] + [dirs[n]];
    }
  }

  /** On the repaired PATH the winner is the first command in the target, read as a list; without
      one, it is the first command on the entries kept.  A target without the separator is its own
      only entry. */
  lemma WinnerAfterRepair(pathValue: string, targetDir: string, exts: seq<string>, files: set<string>)
    ensures var target := Target(targetDir); var own := FirstCommand(SplitColons(target), exts, files);
      && WinnerOn(Repaired(pathValue, targetDir), exts, files)
         == (if own != "" then own else FirstCommand(Kept(SplitList(pathValue), target), exts, files))
      && (':' !in target && !Blank(target) ==> own == FirstExisting(target, exts, files))
  {
    var target := Target(targetDir);
    RepairedEntries(pathValue, targetDir);
    FirstStaysFirst(Found(SplitList(Repaired(pathValue, targetDir)), exts, files), CommandKey());
    WinnerIsFirstCommand(SplitList(Repaired(pathValue, targetDir)), exts, files);
    FirstCommandConcat(SplitColons(target), Kept(SplitList(pathValue), target), exts, files);
    if ':' !in target {
      SplitOneEntry(target);
      FirstCommandOfOne(target, exts, files);
    }
  }

  /** Whatever the target and the PATH were, inspection after a repair reports "ok" exactly when
      the target binary is the first command in the target, read as a list, or the target holds no
      command and the binary is the first one on the entries kept. */
  lemma RepairMakesOk(pathValue: string, targetDir: string, targetBinary: string, exts: seq<string>, files: set<string>)
    requires !Blank(targetBinary)
    ensures var target := Target(targetDir); var own := FirstCommand(SplitColons(target), exts, files);
      StatusOf(WinnerOn(Repaired(pathValue, targetDir), exts, files), targetBinary) == Ok
      <==> (if own != "" then SamePath(own, targetBinary)
            else SamePath(FirstCommand(Kept(SplitList(pathValue), target), exts, files), targetBinary))
  {
    WinnerAfterRepair(pathValue, targetDir, exts, files);
  }

  /** An empty path is cleaned to ".", so with no command found at all the report is still "ok"
      when, and only when, the target binary is spelled as the current directory. */
  lemma OkWithoutCommand(targetBinary: string)
    requires !Blank(targetBinary)
    ensures StatusOf("", targetBinary) == Ok <==> CleanSpec(TrimSpace(targetBinary)) == "."
    ensures StatusOf("", targetBinary) != Ok <==> StatusOf("", targetBinary) == Missing
  {
    assert TrimSpace("") == "";
    ScanMeansClean("");
  }
}
