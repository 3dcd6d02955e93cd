/** The control server's repository paths: `normalizeRelativePath`, `resolveRepoRelativePath`,
    `joinRepoPath` and `parentRepoPath`, against the component stacks of `Paths`. */
module RepoPaths {
  import opened Text
  import opened Paths

  // ----- the operations -----

  function WithForwardSlashes(s: string): (r: string)
    ensures |r| == |s| && forall i :: 0 <= i < |s| ==> r[i] == if s[i] == '\\' then '/' else s[i]
  {
    seq(|s|, i requires 0 <= i < |s| => if s[i] == '\\' then '/' else s[i])
  }

  /** The texts `normalizeRelativePath` turns down. */
  predicate TurnedDown(cleaned: string) {
    cleaned == "." || cleaned == "/" || cleaned == ".." || "../" <= cleaned || "/" <= cleaned
  }

  function NormalizeRelativePath(value: string): string {
    var trimmed := TrimSpace(WithForwardSlashes(value));
    if trimmed == "" then ""
    else
      var cleaned := CleanSpec(trimmed);
      if TurnedDown(cleaned) then "" else cleaned
  }

  datatype Resolution = Ok(absolutePath: string) | RootUnavailable | RelativePathRequired | NotRelatable | Escapes

  /** `filepath.Rel` on two cleaned paths: up past what differs of the base, then down. */
  function Rel(base: string, target: string): Option<string> {
    if base == target then Some(".")
    else if Rooted(base) != Rooted(target) then None
    else
      var b, t := StackOf(base), StackOf(target);
      var k := CommonLength(b, t);
      if k < |b| && b[k] == ".." then None
      else Some(Join(Ups(|b| - k) + t[k..]))
  }

  function CommonLength(a: seq<string>, b: seq<string>): (k: nat)
    ensures k <= |a| && k <= |b| && a[..k] == b[..k]
    ensures k < |a| && k < |b| ==> a[k] != b[k]
  {
    if a == [] || b == [] || a[0] != b[0] then 0 else 1 + CommonLength(a[1..], b[1..])
  }

  function Ups(n: nat): (r: seq<string>)
    ensures |r| == n && forall i :: 0 <= i < n ==> r[i] == ".."
  {
    seq(n, _ => "..")
  }

  function ResolveRepoRelativePath(repoRoot: string, relativePath: string): Resolution {
    var root := CleanSpec(TrimSpace(repoRoot));
    if root == "" then RootUnavailable
    else if TrimSpace(relativePath) == "" then RelativePathRequired
    else
      var absolute := CleanSpec(CleanSpec(root + "/" + relativePath));
      match Rel(root, absolute)
      case None => NotRelatable
      case Some(rel) => if rel == ".." || "../" <= rel then Escapes else Ok(absolute)
  }

  function LastSlash(s: string): (k: nat)
    ensures k <= |s| && (k > 0 ==> s[k - 1] == '/')
  {
    if s == "" || s[|s| - 1] == '/' then |s| else LastSlash(s[..|s| - 1])
  }

  /** Everything up to and including the last slash, cleaned. */
  function Dir(p: string): string {
    CleanSpec(p[..LastSlash(p)])
  }

  function ParentRepoPath(current: string): string {
    var normalized := NormalizeRelativePath(current);
    if normalized == "" || '/' !in normalized then "" else Dir(normalized)
  }

  function JoinRepoPath(base: string, name: string): string {
    if TrimSpace(base) == "" then NormalizeRelativePath(name) else NormalizeRelativePath(base + "/" + name)
  }

  /** A base that is all white space is no base. */
  lemma JoinReads(base: string, name: string)
    ensures (forall i :: 0 <= i < |base| ==> IsSpace(base[i])) ==>
      JoinRepoPath(base, name) == NormalizeRelativePath(name)
    ensures (exists i :: 0 <= i < |base| && !IsSpace(base[i])) ==>
      JoinRepoPath(base, name) == NormalizeRelativePath(base + "/" + name)
  {
    BlankIsAllSpace(base);
  }

  // ----- what normalising yields -----

  lemma PrefixIsFirstPart(s: string, head: string)
    requires SlashFree(head) && head + "/" <= s
    ensures Split(s)[0] == head
  {
    SplitCons(head, s[|head| + 1..]);
    assert s == head + "/" + s[|head| + 1..];
  }

  lemma FirstPartIsPrefix(stack: seq<string>)
    requires |stack| > 1
    ensures stack[0] + "/" <= Join(stack)
  {
    JoinAppend([stack[0]], stack[1..]);
    assert stack == [stack[0]] + stack[1..];
    assert Join(stack) == (stack[0] + "/") + Join(stack[1..]);
  }

  lemma OnlyPart(stack: seq<string>, head: string)
    requires stack != [] && SlashFree(head) && forall i :: 0 <= i < |stack| ==> SlashFree(stack[i])
    ensures Join(stack) == head <==> stack == [head]
  {
    SplitOfJoin(stack);
    SplitOne(head);
  }

  lemma JoinPrefix(stack: seq<string>, head: string)
    requires stack != [] && SlashFree(head) && forall i :: 0 <= i < |stack| ==> SlashFree(stack[i])
    ensures (Join(stack) == head || head + "/" <= Join(stack)) <==> stack[0] == head
    ensures Join(stack) == head <==> stack == [head]
  {
    OnlyPart(stack, head);
    if head + "/" <= Join(stack) {
      SplitOfJoin(stack);
      PrefixIsFirstPart(Join(stack), head);
    }
    if |stack| > 1 {
      FirstPartIsPrefix(stack);
    } else {
      assert stack == [stack[0]];
    }
  }

  lemma TurnedDownExactly(rooted: bool, stack: seq<string>)
    requires WellFormed(rooted, stack)
    ensures TurnedDown(Render(rooted, stack)) <==> rooted || stack == [] || stack[0] == ".."
    ensures !rooted && stack != [] ==> Render(rooted, stack) == Join(stack)
  {
    PartsAreSlashFree(rooted, stack);
    JoinIsNotRooted(rooted, stack);
    if rooted {
      assert Body(true, stack)[..1] == "/";
    } else if stack != [] {
      JoinPrefix(stack, "..");
      JoinPrefix(stack, ".");
      assert ".." + "/" == "../";
      assert Join(stack)[0] != '/';
    }
  }

  /** The reference for `normalizeRelativePath`: the component stack, unless the path is empty,
      absolute, or names its own root or something above it. */
  lemma NormalizedIsStack(value: string)
    ensures var t := TrimSpace(WithForwardSlashes(value)); var stack := StackOf(t);
      NormalizeRelativePath(value)
      == if t == "" || Rooted(t) || stack == [] || stack[0] == ".." then "" else Join(stack)
  {
    var t := TrimSpace(WithForwardSlashes(value));
    StackIsWellFormed(t);
    TurnedDownExactly(Rooted(t), StackOf(t));
  }

  /** A relative path all of whose components name something. */
  ghost predicate IsNormal(p: string) {
    AllPlain(Split(p)) && '\\' !in p
  }

  lemma WithoutDotsIsPlain(stack: seq<string>)
    requires WellFormed(false, stack) && stack != [] && stack[0] != ".."
    ensures AllPlain(stack)
  {
    var d: nat :| d <= |stack| && Shape(false, stack, d);
    assert d == 0;
    assert stack[0..] == stack;
  }

  lemma NoBackslash(p: string)
    requires '\\' !in p
    ensures forall i :: 0 <= i < |Split(p)| ==> '\\' !in Split(p)[i]
    decreases |p|
  {
    var k := FirstSlash(p);
    if k < |p| {
      NoBackslash(p[k + 1..]);
    }
  }

  lemma {:induction false} WalkAddsNothing(rooted: bool, stack: seq<string>, parts: seq<string>, c: char)
    requires c !in {'/', '.'}
    requires forall i :: 0 <= i < |stack| ==> c !in stack[i]
    requires forall i :: 0 <= i < |parts| ==> c !in parts[i]
    ensures forall i :: 0 <= i < |Walk(rooted, stack, parts)| ==> c !in Walk(rooted, stack, parts)[i]
    decreases |parts|
  {
    if parts != [] {
      WalkAddsNothing(rooted, Push(rooted, stack, parts[0]), parts[1..], c);
    }
  }

  lemma {:induction false} JoinAddsNothing(parts: seq<string>, c: char)
    requires c != '/' && forall i :: 0 <= i < |parts| ==> c !in parts[i]
    ensures c !in Join(parts)
  {
    if |parts| > 1 {
      JoinAddsNothing(parts[..|parts| - 1], c);
    }
  }

  lemma {:induction false} TrimKeepsAbsence(s: string, c: char)
    requires c !in s
    ensures c !in TrimSpace(s)
    decreases |s|
  {
    if !Trimmed(s) {
      if IsSpace(s[0]) {
        TrimKeepsAbsence(s[1..], c);
      } else {
        TrimKeepsAbsence(s[..|s| - 1], c);
      }
    }
  }

  /** Whatever the input, the result is empty or a relative path without "", "." or ".."
      components and without backslashes. */
  lemma NormalizedIsNormal(value: string)
    ensures NormalizeRelativePath(value) == "" || IsNormal(NormalizeRelativePath(value))
  {
    var t := TrimSpace(WithForwardSlashes(value));
    NormalizedIsStack(value);
    if NormalizeRelativePath(value) != "" {
      var stack := StackOf(t);
      StackIsWellFormed(t);
      WithoutDotsIsPlain(stack);
      SplitOfJoin(stack);
      TrimKeepsAbsence(WithForwardSlashes(value), '\\');
      NoBackslash(t);
      WalkAddsNothing(false, [], Split(t), '\\');
      JoinAddsNothing(stack, '\\');
    }
  }

  lemma NormalIsItsOwnStack(p: string)
    requires IsNormal(p)
    ensures p != "" && !Rooted(p) && StackOf(p) == Split(p) && CleanSpec(p) == p
    ensures WithForwardSlashes(p) == p
  {
    JoinOfSplit(p);
    var parts := Split(p);
    assert Shape(false, parts, 0) by { assert parts[0..] == parts; }
    assert WellFormed(false, parts);
    JoinIsNotRooted(false, parts);
    WalkPlain(false, [], parts);
    assert [] + parts == parts;
    assert forall i :: 0 <= i < |p| ==> p[i] in p;
  }

  lemma NormalTrimmedIsFixed(p: string)
    requires IsNormal(p) && Trimmed(p)
    ensures NormalizeRelativePath(p) == p
  {
    NormalIsItsOwnStack(p);
    NormalizedIsStack(p);
    JoinOfSplit(p);
    assert Split(p)[0] != "..";
  }

  // ----- normalising twice -----

  function Weight(parts: seq<string>): nat {
    if parts == [] then 0 else Weight(parts[..|parts| - 1]) + |parts[|parts| - 1]| + 1
  }

  lemma {:induction false} WeightAppend(a: seq<string>, b: seq<string>)
    ensures Weight(a + b) == Weight(a) + Weight(b)
    decreases |b|
  {
    if b == [] {
      assert a + b == a;
    } else {
      assert (a + b)[..|a + b| - 1] == a + b[..|b| - 1];
      WeightAppend(a, b[..|b| - 1]);
    }
  }

  lemma {:induction false} JoinWeight(parts: seq<string>)
    requires parts != []
    ensures |Join(parts)| + 1 == Weight(parts)
  {
    if |parts| > 1 {
      JoinWeight(parts[..|parts| - 1]);
    } else {
      assert parts[..0] == [];
    }
  }

  lemma {:induction false} WalkWeight(rooted: bool, stack: seq<string>, parts: seq<string>)
    ensures Weight(Walk(rooted, stack, parts)) <= Weight(stack) + Weight(parts)
    decreases |parts|
  {
    if parts != [] {
      var next := Push(rooted, stack, parts[0]);
      WalkWeight(rooted, next, parts[1..]);
      assert parts == [parts[0]] + parts[1..];
      WeightAppend([parts[0]], parts[1..]);
      WeightAppend(stack, [parts[0]]);
      assert [parts[0]][..0] == [];
    }
  }

  /** Normalising never makes a path longer than its trimmed input. */
  lemma NormalizedIsNoLonger(value: string)
    ensures |NormalizeRelativePath(value)| <= |TrimSpace(WithForwardSlashes(value))|
  {
    var t := TrimSpace(WithForwardSlashes(value));
    NormalizedIsStack(value);
    if NormalizeRelativePath(value) != "" {
      WalkWeight(false, [], Split(t));
      JoinWeight(StackOf(t));
      JoinWeight(Split(t));
      JoinOfSplit(t);
    }
  }

  lemma {:induction false} TrimShortens(s: string)
    ensures |TrimSpace(s)| <= |s| && (!Trimmed(s) ==> |TrimSpace(s)| < |s|)
    decreases |s|
  {
    if !Trimmed(s) {
      TrimShortens(if IsSpace(s[0]) then s[1..] else s[..|s| - 1]);
    }
  }

  /** Normalising is not idempotent: cleaning can expose white space that the next call trims.
      A normalised path is a fixed point exactly when it neither starts nor ends with some. */
  lemma NormalizedIsFixedWhenTrimmed(value: string)
    ensures var once := NormalizeRelativePath(value);
      NormalizeRelativePath(once) == once <==> Trimmed(once)
  {
    var once := NormalizeRelativePath(value);
    NormalizedIsNormal(value);
    if once != "" {
      if Trimmed(once) {
        NormalTrimmedIsFixed(once);
      } else {
        NormalIsItsOwnStack(once);
        NormalizedIsNoLonger(once);
        TrimShortens(once);
      }
    }
  }

  // ----- resolving -----

  /** The stack of a relative path below a cleaned root. */
  lemma StackBelowRoot(root: string, rel: string)
    requires CleanSpec(root) == root
    ensures Rooted(root + "/" + rel) == Rooted(root)
    ensures StackOf(root + "/" + rel) == Walk(Rooted(root), StackOf(root), Split(rel))
  {
    assert root != "";
    SplitAppend(root, rel);
    WalkAppend(Rooted(root), [], Split(root), Split(rel));
  }

  lemma CleanedTwice(p: string)
    ensures var c := CleanSpec(CleanSpec(p)); c == CleanSpec(p) && Rooted(c) == Rooted(p) && StackOf(c) == StackOf(p)
    ensures WellFormed(Rooted(p), StackOf(p))
  {
    StackIsWellFormed(p);
    RenderedStack(Rooted(p), StackOf(p));
  }

  lemma UpsAndDown(n: nat, down: seq<string>)
    requires n > 0 || down != []
    requires forall i :: 0 <= i < |down| ==> SlashFree(down[i])
    ensures var parts := Ups(n) + down;
      && parts != [] && parts[0] == (if n > 0 then ".." else down[0])
      && (forall i :: 0 <= i < |parts| ==> SlashFree(parts[i]))
  {
  }

  /** A path up and then down, as `Rel` writes it, starts with ".." exactly when it goes up. */
  lemma UpsFirst(n: nat, down: seq<string>)
    requires n > 0 || down != []
    requires forall i :: 0 <= i < |down| ==> SlashFree(down[i])
    requires n == 0 ==> down[0] != ".."
    ensures var rel := Join(Ups(n) + down); (rel == ".." || "../" <= rel) <==> n > 0
  {
    UpsAndDown(n, down);
    StartsWithUp(Ups(n) + down);
  }

  lemma StartsWithUp(parts: seq<string>)
    requires parts != [] && forall i :: 0 <= i < |parts| ==> SlashFree(parts[i])
    ensures (Join(parts) == ".." || "../" <= Join(parts)) <==> parts[0] == ".."
  {
    JoinPrefix(parts, "..");
    assert ".." + "/" == "../";
  }

  lemma {:induction false} CommonLengthIsPrefix(a: seq<string>, b: seq<string>)
    ensures CommonLength(a, b) == |a| <==> a <= b
  {
    if a != [] && b != [] && a[0] == b[0] {
      CommonLengthIsPrefix(a[1..], b[1..]);
      assert a == [a[0]] + a[1..] && b == [b[0]] + b[1..];
    }
  }

  /** `k` components in common, and no more. */
  ghost predicate Parts(b: seq<string>, t: seq<string>, k: nat) {
    k <= |b| && k <= |t| && b[..k] == t[..k] && (k < |b| && k < |t| ==> b[k] != t[k])
  }

  lemma PartsAtPrefix(b: seq<string>, t: seq<string>, k: nat)
    requires Parts(b, t, k)
    ensures b <= t <==> k == |b|
    ensures b != t && k == |b| ==> k < |t|
  {
    assert b[..|b|] == b && t[..|t|] == t;
  }

  lemma UpThenDown(b: seq<string>, t: seq<string>, k: nat)
    requires Parts(b, t, k) && b != t && forall i :: 0 <= i < |t| ==> SlashFree(t[i])
    requires forall i :: 0 <= i < |t| && t[i] == ".." ==> i < |b|
    ensures var rel := Join(Ups(|b| - k) + t[k..]); (rel == ".." || "../" <= rel) <==> !(b <= t)
  {
    PartsAtPrefix(b, t, k);
    UpsFirst(|b| - k, t[k..]);
  }

  lemma RelGoesUp(base: string, target: string)
    requires StackOf(base) == StackOf(target) ==> base == target
    requires Rooted(base) == Rooted(target) && WellFormed(Rooted(target), StackOf(target))
    requires var k := CommonLength(StackOf(base), StackOf(target)); k < |StackOf(base)| ==> StackOf(base)[k] != ".."
    requires forall i :: 0 <= i < |StackOf(target)| && StackOf(target)[i] == ".." ==> i < |StackOf(base)|
    ensures Rel(base, target).Some?
    ensures var rel := Rel(base, target).value;
      (rel == ".." || "../" <= rel) <==> !(StackOf(base) <= StackOf(target))
  {
    var b, t := StackOf(base), StackOf(target);
    if base == target {
      assert !("../" <= ".");
    } else {
      PartsAreSlashFree(Rooted(target), t);
      UpThenDown(b, t, CommonLength(b, t));
    }
  }

  lemma RootedHasNoUps(stack: seq<string>)
    requires WellFormed(true, stack)
    ensures forall i :: 0 <= i < |stack| ==> stack[i] != ".."
  {
    assert stack[0..] == stack;
  }

  /** The two cleaned paths that resolving compares, as stacks. */
  lemma ResolvedPaths(repoRoot: string, rel: string)
    ensures var given := TrimSpace(repoRoot); var root := CleanSpec(given);
      var target := Walk(Rooted(given), StackOf(given), Split(rel));
      var absolute := CleanSpec(CleanSpec(root + "/" + rel));
      && root != "" && Rooted(root) == Rooted(given) && StackOf(root) == StackOf(given)
      && absolute == Render(Rooted(given), target) && Rooted(absolute) == Rooted(given) && StackOf(absolute) == target
      && WellFormed(Rooted(given), target)
      && (StackOf(root) == StackOf(absolute) ==> root == absolute)
  {
    var given := TrimSpace(repoRoot);
    var root := CleanSpec(given);
    CleanedTwice(given);
    StackBelowRoot(root, rel);
    CleanedTwice(root + "/" + rel);
  }

  /** Resolving when nothing the target keeps or adds beside the root is "..". */
  lemma ResolveByStacks(repoRoot: string, rel: string, base: seq<string>, target: seq<string>)
    requires !Blank(rel) && base == StackOf(TrimSpace(repoRoot))
    requires target == Walk(Rooted(TrimSpace(repoRoot)), base, Split(rel))
    requires var k := CommonLength(base, target); k < |base| ==> base[k] != ".."
    requires forall i :: 0 <= i < |target| && target[i] == ".." ==> i < |base|
    ensures ResolveRepoRelativePath(repoRoot, rel)
         == if base <= target then Ok(Render(Rooted(TrimSpace(repoRoot)), target)) else Escapes
  {
    ResolvedPaths(repoRoot, rel);
    var root := CleanSpec(TrimSpace(repoRoot));
    RelGoesUp(root, CleanSpec(CleanSpec(root + "/" + rel)));
  }

  /** Under an absolute root, resolving succeeds exactly when the root's components are still
      in front of the target's, and then gives the cleaned target. */
  lemma ResolveUnderAbsoluteRoot(repoRoot: string, rel: string)
    requires Rooted(TrimSpace(repoRoot)) && !Blank(rel)
    ensures var rootStack := StackOf(TrimSpace(repoRoot)); var target := Walk(true, rootStack, Split(rel));
      ResolveRepoRelativePath(repoRoot, rel)
      == if rootStack <= target then Ok(Render(true, target)) else Escapes
  {
    var given := TrimSpace(repoRoot);
    var target := Walk(true, StackOf(given), Split(rel));
    ResolvedPaths(repoRoot, rel);
    StackIsWellFormed(given);
    RootedHasNoUps(StackOf(given));
    RootedHasNoUps(target);
    ResolveByStacks(repoRoot, rel, StackOf(given), target);
  }

  lemma {:induction false} WalkUps(rooted: bool, stack: seq<string>, n: nat)
    requires n <= |stack| && forall i :: |stack| - n <= i < |stack| ==> stack[i] != ".."
    ensures Walk(rooted, stack, Ups(n)) == stack[..|stack| - n]
    decreases n
  {
    if n > 0 {
      var next := stack[..|stack| - 1];
      assert Ups(n)[0] == ".." && Ups(n)[1..] == Ups(n - 1);
      WalkUps(rooted, next, n - 1);
      assert next[..|next| - (n - 1)] == stack[..|stack| - n];
    }
  }

  lemma NoUpsAfterName(rooted: bool, stack: seq<string>, k: nat)
    requires WellFormed(rooted, stack) && k < |stack| && stack[k] != ".."
    ensures forall i :: k <= i < |stack| ==> stack[i] != ".."
  {
    var d: nat :| d <= |stack| && Shape(rooted, stack, d);
    assert forall i :: d <= i < |stack| ==> stack[i] == stack[d..][i - d];
  }

  /** Up past what differs, then down: there and nowhere else. */
  lemma UpsAndDownLead(rooted: bool, b: seq<string>, t: seq<string>, k: nat)
    requires WellFormed(rooted, b) && WellFormed(rooted, t) && Parts(b, t, k) && (k < |b| ==> b[k] != "..")
    ensures Walk(rooted, b, Ups(|b| - k) + t[k..]) == t
  {
    if k < |b| {
      NoUpsAfterName(rooted, b, k);
    }
    WalkUps(rooted, b, |b| - k);
    WalkAppend(rooted, b, Ups(|b| - k), t[k..]);
    WalkOfStack(rooted, t, k);
  }

  lemma WalkOfJoined(rooted: bool, stack: seq<string>, parts: seq<string>)
    requires forall i :: 0 <= i < |parts| ==> SlashFree(parts[i])
    ensures Walk(rooted, stack, Split(Join(parts))) == Walk(rooted, stack, parts)
  {
    if parts == [] {
      SplitOne("");
      assert Walk(rooted, stack, [""]) == Walk(rooted, Push(rooted, stack, ""), []);
    } else {
      SplitOfJoin(parts);
    }
  }

  /** The two cases of `Rel`, with the stacks as given values. */
  lemma RelIs(base: string, target: string, b: seq<string>, t: seq<string>, k: nat)
    requires b == StackOf(base) && t == StackOf(target) && k == CommonLength(b, t)
    ensures Parts(b, t, k)
    ensures base == target ==> Rel(base, target) == Some(".") && Rooted(base) == Rooted(target) && b == t
    ensures base != target ==>
      Rel(base, target) == if Rooted(base) != Rooted(target) || (k < |b| && b[k] == "..") then None
                           else Some(Join(Ups(|b| - k) + t[k..]))
  {
  }

  lemma DotLeadsNowhere(rooted: bool, stack: seq<string>)
    ensures Walk(rooted, stack, Split(".")) == stack
  {
    SplitOne(".");
    assert Walk(rooted, stack, ["."]) == Walk(rooted, Push(rooted, stack, "."), []);
  }

  lemma TextLeadsThere(rooted: bool, b: seq<string>, t: seq<string>, k: nat)
    requires WellFormed(rooted, b) && WellFormed(rooted, t) && Parts(b, t, k) && (k < |b| ==> b[k] != "..")
    ensures Walk(rooted, b, Split(Join(Ups(|b| - k) + t[k..]))) == t
  {
    PartsAreSlashFree(rooted, t);
    UpsAndDownLead(rooted, b, t, k);
    WalkOfJoined(rooted, b, Ups(|b| - k) + t[k..]);
  }

  /** What `Rel` writes leads from the base to the target; it writes nothing exactly when only one of
      them is absolute, or the base goes up where they part. */
  lemma RelLeadsThere(base: string, target: string, b: seq<string>, t: seq<string>)
    requires b == StackOf(base) && WellFormed(Rooted(base), b) && t == StackOf(target) && WellFormed(Rooted(target), t)
    ensures var k := CommonLength(b, t);
      Rel(base, target) == None
      <==> base != target && (Rooted(base) != Rooted(target) || (k < |b| && b[k] == ".."))
    ensures Rel(base, target).Some? ==>
      Rooted(base) == Rooted(target) && Walk(Rooted(base), b, Split(Rel(base, target).value)) == t
  {
    var k := CommonLength(b, t);
    RelIs(base, target, b, t, k);
    if base == target {
      DotLeadsNowhere(Rooted(base), b);
    } else if Rel(base, target).Some? {
      TextLeadsThere(Rooted(base), b, t, k);
    }
  }

  /** Resolving under any root, in components: the target must not leave the root, neither by going
      up from it nor, where the root itself goes up, beside it. */
  lemma ResolveExactly(repoRoot: string, rel: string)
    ensures var base := StackOf(TrimSpace(repoRoot)); var rooted := Rooted(TrimSpace(repoRoot));
      var target := Walk(rooted, base, Split(rel)); var k := CommonLength(base, target);
      ResolveRepoRelativePath(repoRoot, rel)
      == if Blank(rel) then RelativePathRequired
         else if k < |base| && base[k] == ".." then NotRelatable
         else if k < |base| || (k < |target| && target[k] == "..") then Escapes
         else Ok(Render(rooted, target))
  {
    if !Blank(rel) {
      ResolvedPaths(repoRoot, rel);
      var root := CleanSpec(TrimSpace(repoRoot));
      var target := Walk(Rooted(root), StackOf(root), Split(rel));
      ResolveGoesBy(root, CleanSpec(CleanSpec(root + "/" + rel)), StackOf(root), target);
    }
  }

  /** How the path from a root to a target begins. */
  lemma ResolveGoesBy(base: string, target: string, b: seq<string>, t: seq<string>)
    requires b == StackOf(base) && t == StackOf(target) && (b == t <==> base == target)
    requires Rooted(base) == Rooted(target) && WellFormed(Rooted(target), t)
    ensures var k := CommonLength(b, t);
      && (Rel(base, target) == None <==> k < |b| && b[k] == "..")
      && (Rel(base, target).Some? ==>
            var r := Rel(base, target).value; (r == ".." || "../" <= r) <==> k < |b| || (k < |t| && t[k] == ".."))
  {
    var k := CommonLength(b, t);
    RelIs(base, target, b, t, k);
    if base == target {
      CommonLengthOfPrefix(b, []);
      assert b + [] == b;
      assert !("../" <= ".");
    } else if Rel(base, target).Some? {
      TextGoesUp(Rooted(target), b, t, k);
    }
  }

  lemma TextGoesUp(rooted: bool, b: seq<string>, t: seq<string>, k: nat)
    requires WellFormed(rooted, t) && Parts(b, t, k) && b != t
    ensures var r := Join(Ups(|b| - k) + t[k..]); (r == ".." || "../" <= r) <==> k < |b| || (k < |t| && t[k] == "..")
  {
    PartsAreSlashFree(rooted, t);
    PartsAtPrefix(b, t, k);
    UpsAndDown(|b| - k, t[k..]);
    StartsWithUp(Ups(|b| - k) + t[k..]);
  }

  lemma CommonLengthOfPrefix(a: seq<string>, b: seq<string>)
    ensures CommonLength(a, a + b) == |a|
  {
    assert a <= a + b;
    CommonLengthIsPrefix(a, a + b);
  }

  lemma NormalizedResolves(repoRoot: string, value: string)
    requires !Blank(NormalizeRelativePath(value))
    ensures var root := TrimSpace(repoRoot); var rel := NormalizeRelativePath(value);
      ResolveRepoRelativePath(repoRoot, rel) == Ok(Render(Rooted(root), StackOf(root) + Split(rel)))
  {
    var rel := NormalizeRelativePath(value);
    var base := StackOf(TrimSpace(repoRoot));
    NormalizedIsNormal(value);
    assert TrimSpace("") == "";
    WalkPlain(Rooted(TrimSpace(repoRoot)), base, Split(rel));
    CommonLengthOfPrefix(base, Split(rel));
    ResolveByStacks(repoRoot, rel, base, base + Split(rel));
  }

  /** A normalised path below any root, absolute or relative, never reaches the escape error:
      it resolves to the root's components followed by its own, unless it is all white space. */
  lemma NormalizedNeverEscapes(repoRoot: string, value: string)
    ensures var root := TrimSpace(repoRoot); var rel := NormalizeRelativePath(value);
      ResolveRepoRelativePath(repoRoot, rel)
      == if Blank(rel) then RelativePathRequired else Ok(Render(Rooted(root), StackOf(root) + Split(rel)))
  {
    if !Blank(NormalizeRelativePath(value)) {
      NormalizedResolves(repoRoot, value);
    }
  }

  // ----- parents -----

  lemma {:induction false} LastSlashAt(base: string, name: string)
    requires SlashFree(name)
    ensures LastSlash(base + "/" + name) == |base| + 1
    decreases |name|
  {
    var p := base + "/" + name;
    var last := p[|p| - 1];
    if name == "" {
      assert last == '/';
    } else {
      assert last == name[|name| - 1] != '/';
      assert p[..|p| - 1] == base + "/" + name[..|name| - 1];
      LastSlashAt(base, name[..|name| - 1]);
    }
  }

  lemma CleanDropsTrailingSlash(p: string)
    requires IsNormal(p)
    ensures CleanSpec(p + "/") == p
  {
    NormalIsItsOwnStack(p);
    StackBelowRoot(p, "");
    SplitOne("");
    assert p + "/" + "" == p + "/";
    assert Walk(false, Split(p), [""]) == Split(p) by { assert [""][1..] == []; }
    JoinOfSplit(p);
  }

  lemma AllPlainSnoc(parts: seq<string>, part: string)
    requires AllPlain(parts) && Plain(part)
    ensures AllPlain(parts + [part])
  {
  }

  lemma JoinedIsNormal(base: string, name: string)
    requires IsNormal(base) && Trimmed(base)
    requires Plain(name) && '\\' !in name && !IsSpace(name[|name| - 1])
    ensures IsNormal(base + "/" + name) && Trimmed(base + "/" + name)
  {
    SplitAppend(base, name);
    SplitOne(name);
    AllPlainSnoc(Split(base), name);
    JoinOfSplit(base);
    assert Split(base)[0] != "";
    TrimOfSuffixed(base, "/" + name);
    assert base + ("/" + name) == base + "/" + name;
  }

  lemma ParentOfJoined(base: string, name: string)
    requires IsNormal(base) && Plain(name)
    requires NormalizeRelativePath(base + "/" + name) == base + "/" + name
    ensures ParentRepoPath(base + "/" + name) == base
  {
    var p := base + "/" + name;
    LastSlashAt(base, name);
    assert p[..|base| + 1] == base + "/";
    assert p[|base|] == '/';
    CleanDropsTrailingSlash(base);
  }

  /** The white space at the end of a name is lost in joining; what is left decides. */
  function TrimRight(s: string): (r: string)
    ensures r <= s && (r == "" || !IsSpace(r[|r| - 1]))
  {
    if s != "" && IsSpace(s[|s| - 1]) then TrimRight(s[..|s| - 1]) else s
  }

  lemma {:induction false} TrimOfJoined(base: string, name: string)
    requires base != "" && Trimmed(base)
    ensures TrimSpace(base + "/" + name) == base + "/" + TrimRight(name)
  {
    var p := base + "/" + name;
    assert p[0] == base[0];
    if name == "" {
      assert p == base + "/";
    } else {
      assert p[|p| - 1] == name[|name| - 1];
      if IsSpace(name[|name| - 1]) {
        assert p[..|p| - 1] == base + "/" + name[..|name| - 1];
        TrimOfJoined(base, name[..|name| - 1]);
      }
    }
  }

  /** Joining a name that is plain once its trailing white space is gone. */
  lemma ParentOfJoinedName(base: string, name: string)
    requires base != "" && IsNormal(base) && Trimmed(base)
    requires Plain(TrimRight(name)) && SlashFree(name) && '\\' !in name
    ensures JoinRepoPath(base, name) == base + "/" + TrimRight(name)
    ensures ParentRepoPath(JoinRepoPath(base, name)) == base
  {
    var rest := TrimRight(name);
    assert '\\' !in rest;
    JoinedIsNormal(base, rest);
    NormalTrimmedIsFixed(base + "/" + rest);
    JoinDropsEdge(base, name);
    ParentOfJoined(base, rest);
  }

  lemma NoBackslashInJoin(base: string, name: string)
    requires '\\' !in base && '\\' !in name
    ensures WithForwardSlashes(base + "/" + name) == base + "/" + name
  {
    var p := base + "/" + name;
    forall i | 0 <= i < |p| ensures p[i] != '\\' {
      assert p[i] in base || p[i] in name || p[i] == '/';
    }
  }

  lemma JoinDropsEdge(base: string, name: string)
    requires base != "" && IsNormal(base) && Trimmed(base) && '\\' !in name
    ensures !Blank(base) && WithForwardSlashes(base + "/" + name) == base + "/" + name
    ensures JoinRepoPath(base, name) == NormalizeRelativePath(base + "/" + TrimRight(name))
  {
    var rest := TrimRight(name);
    assert '\\' !in rest;
    NoBackslashInJoin(base, name);
    NoBackslashInJoin(base, rest);
    TrimOfJoined(base, name);
    TrimOfJoined(base, rest);
    TrimRightTwice(name);
  }

  lemma TrimRightTwice(name: string)
    ensures TrimRight(TrimRight(name)) == TrimRight(name)
  {
  }

  lemma StackOfJoined(base: string, name: string)
    requires IsNormal(base) && SlashFree(name)
    ensures StackOf(base + "/" + name) == Push(false, Split(base), name) && !Rooted(base + "/" + name)
  {
    NormalIsItsOwnStack(base);
    StackBelowRoot(base, name);
    SplitOne(name);
    assert Walk(false, Split(base), [name]) == Walk(false, Push(false, Split(base), name), [name][1..]);
    assert [name][1..] == [];
  }

  /** The joined path, as a stack. */
  lemma NormalizedJoin(base: string, name: string)
    requires base != "" && IsNormal(base) && Trimmed(base) && '\\' !in name && SlashFree(name)
    ensures var stack := Push(false, Split(base), TrimRight(name));
      JoinRepoPath(base, name) == if stack == [] || stack[0] == ".." then "" else Join(stack)
  {
    JoinDropsEdge(base, name);
    TrimOfJoined(base, name);
    StackOfJoined(base, TrimRight(name));
    NormalizedIsStack(base + "/" + name);
  }

  lemma ParentIsNoLonger(current: string)
    ensures |ParentRepoPath(current)| <= |current|
    ensures IsNormal(current) && Trimmed(current) ==> |ParentRepoPath(current)| < |current|
  {
    var normalized := NormalizeRelativePath(current);
    NormalizedIsNoLonger(current);
    TrimShortens(WithForwardSlashes(current));
    NormalizedIsNormal(current);
    if normalized != "" && '/' in normalized {
      ParentIsPrefix(normalized);
    }
    if IsNormal(current) && Trimmed(current) {
      NormalTrimmedIsFixed(current);
      NormalIsItsOwnStack(current);
    }
  }

  lemma OnePartHasNoSlash(p: string)
    requires |Split(p)| == 1
    ensures '/' !in p
  {
    FirstSlashStops(p);
    assert p[..|p|] == p;
  }

  lemma FrontAndLast(p: string)
    requires |Split(p)| > 1
    ensures var front, last := Split(p)[..|Split(p)| - 1], Split(p)[|Split(p)| - 1];
      SlashFree(last) && p == Join(front) + "/" + last
  {
    JoinOfSplit(p);
    SplitIsSlashFree(p);
  }

  lemma SeveralParts(p: string)
    requires '/' in p
    ensures |Split(p)| > 1
  {
    if |Split(p)| == 1 {
      OnePartHasNoSlash(p);
    }
  }

  lemma ParentIsPrefix(p: string)
    requires IsNormal(p) && '/' in p
    ensures |Dir(p)| < |p|
  {
    SeveralParts(p);
    FrontAndLast(p);
    var front := Split(p)[..|Split(p)| - 1];
    LastSlashAt(Join(front), Split(p)[|Split(p)| - 1]);
    assert p[..|Join(front)| + 1] == Join(front) + "/";
    PartsOfNormal(p, front);
    CleanDropsTrailingSlash(Join(front));
  }

  lemma PartsOfNormal(p: string, before: seq<string>)
    requires IsNormal(p) && before != [] && before < Split(p)
    ensures IsNormal(Join(before))
  {
    SplitOfJoin(before);
    NoBackslash(p);
    JoinAddsNothing(before, '\\');
  }

  lemma JoinOfFrontIsShorter(parts: seq<string>)
    requires |parts| > 1
    ensures |Join(parts[..|parts| - 1])| < |Join(parts)|
  {
  }

  /** Joining a name that is gone, "." or ".." once its trailing white space is: the result is
      the base itself or something shorter. */
  lemma LostNameShortens(base: string, name: string)
    requires base != "" && IsNormal(base) && Trimmed(base)
    requires SlashFree(name) && '\\' !in name && TrimRight(name) in {"", ".", ".."}
    ensures JoinRepoPath(base, name) == base || |JoinRepoPath(base, name)| < |base|
  {
    var parts := Split(base);
    NormalizedJoin(base, name);
    JoinOfSplit(base);
    assert parts[0] != ".." && parts[|parts| - 1] != "..";
    if |parts| > 1 {
      JoinOfFrontIsShorter(parts);
    }
  }

  lemma ParentOfLostName(base: string, name: string)
    requires base != "" && IsNormal(base) && Trimmed(base)
    requires SlashFree(name) && '\\' !in name && TrimRight(name) in {"", ".", ".."}
    ensures ParentRepoPath(JoinRepoPath(base, name)) != base
  {
    LostNameShortens(base, name);
    ParentIsNoLonger(JoinRepoPath(base, name));
    ParentIsNoLonger(base);
  }

  /** For a base that is empty or already normal and a plain name, the parent of the joined path
      is that base exactly when the base is empty or the name, without its trailing white space,
      is still a name. */
  lemma ParentUndoesJoin(base: string, name: string)
    requires base == "" || NormalizeRelativePath(base) == base
    requires Plain(name) && '\\' !in name
    ensures ParentRepoPath(JoinRepoPath(base, name)) == base <==> base == "" || TrimRight(name) !in {"", ".", ".."}
  {
    if base == "" {
      ParentOfPlainName(name);
    } else {
      NormalizedIsNormal(base);
      NormalizedIsFixedWhenTrimmed(base);
      if TrimRight(name) in {"", ".", ".."} {
        ParentOfLostName(base, name);
      } else {
        ParentOfJoinedName(base, name);
      }
    }
  }

  lemma {:induction false} TrimKeepsSlashFree(s: string)
    requires SlashFree(s)
    ensures SlashFree(TrimSpace(s))
    decreases |s|
  {
    if !Trimmed(s) {
      TrimKeepsSlashFree(if IsSpace(s[0]) then s[1..] else s[..|s| - 1]);
    }
  }

  lemma OnePartPath(t: string)
    requires SlashFree(t)
    ensures StackOf(t) == Push(false, [], t) && !Rooted(t)
  {
    SplitOne(t);
    assert !Rooted(t);
    assert Walk(false, [], [t]) == Walk(false, Push(false, [], t), [t][1..]);
  }

  lemma ParentOfPlainName(name: string)
    requires Plain(name) && '\\' !in name
    ensures ParentRepoPath(JoinRepoPath("", name)) == ""
  {
    assert TrimSpace("") == "";
    assert WithForwardSlashes(name) == name by { assert forall i :: 0 <= i < |name| ==> name[i] in name; }
    var t := TrimSpace(name);
    TrimKeepsSlashFree(name);
    TrimKeepsAbsence(name, '\\');
    OnePartPath(t);
    NormalizedIsStack(name);
    if t in {"", ".", ".."} {
      assert JoinRepoPath("", name) == "";
      assert NormalizeRelativePath("") == "" by { assert WithForwardSlashes("") == ""; }
    } else {
      assert JoinRepoPath("", name) == t;
      NoParentOfOnePart(t);
    }
  }

  lemma NoParentOfOnePart(t: string)
    requires Trimmed(t) && Plain(t) && '\\' !in t
    ensures ParentRepoPath(t) == ""
  {
    SplitOne(t);
    assert IsNormal(t);
    NormalTrimmedIsFixed(t);
    OnePartHasNoSlash(t);
  }
}
