/** Lexical paths: `path.Clean` as its one-pass scan, against a reference: a stack of
    components.  Paths use forward slashes (the Unix form of `filepath`). */
module Paths {
  import opened Text

  // ----- components -----

  /** The index of the first slash, or the length. */
  function FirstSlash(s: string): (k: nat)
    ensures k <= |s|
  {
    if s == "" || s[0] == '/' then 0 else 1 + FirstSlash(s[1..])
  }

  lemma {:induction false} FirstSlashStops(s: string)
    ensures var k := FirstSlash(s); SlashFree(s[..k]) && (k < |s| ==> s[k] == '/')
  {
    if s != "" && s[0] != '/' {
      FirstSlashStops(s[1..]);
      var k := FirstSlash(s[1..]);
      assert s[..k + 1] == [s[0]] + s[1..][..k];
    }
  }

  /** `strings.Split(s, "/")`. */
  function Split(s: string): (parts: seq<string>)
    ensures |parts| > 0
    decreases |s|
  {
    var k := FirstSlash(s);
    if k == |s| then [s] else [s[..k]] + Split(s[k + 1..])
  }

  function Join(parts: seq<string>): string {
    if parts == [] then ""
    else if |parts| == 1 then parts[0]
    else Join(parts[..|parts| - 1]) + "/" + parts[|parts| - 1]
  }

  ghost predicate SlashFree(part: string) {
    forall i :: 0 <= i < |part| ==> part[i] != '/'
  }

  /** A component that names something. */
  ghost predicate Plain(part: string) {
    part !in {"", ".", ".."} && SlashFree(part)
  }

  ghost predicate AllPlain(parts: seq<string>) {
    forall i :: 0 <= i < |parts| ==> Plain(parts[i])
  }

  // ----- the reference: a stack of components -----

  function Push(rooted: bool, stack: seq<string>, part: string): seq<string> {
    if part in {"", "."} then stack
    else if part == ".." then
      if stack != [] && stack[|stack| - 1] != ".." then stack[..|stack| - 1]
      else if rooted then stack
      else stack + [part]
    else stack + [part]
  }

  function Walk(rooted: bool, stack: seq<string>, parts: seq<string>): seq<string>
    decreases |parts|
  {
    if parts == [] then stack else Walk(rooted, Push(rooted, stack, parts[0]), parts[1..])
  }

  predicate Rooted(p: string) {
    p != "" && p[0] == '/'
  }

  function StackOf(p: string): seq<string> {
    Walk(Rooted(p), [], Split(p))
  }

  function Body(rooted: bool, stack: seq<string>): string {
    if rooted then "/" + Join(stack) else Join(stack)
  }

  function Render(rooted: bool, stack: seq<string>): string {
    if Body(rooted, stack) == "" then "." else Body(rooted, stack)
  }

  /** What `path.Clean` means. */
  function CleanSpec(p: string): string {
    Render(Rooted(p), StackOf(p))
  }

  /** The shape of every stack: ".." only at the bottom, and only in a relative path. */
  ghost predicate WellFormed(rooted: bool, stack: seq<string>) {
    exists d: nat :: d <= |stack| && Shape(rooted, stack, d)
  }

  ghost predicate Shape(rooted: bool, stack: seq<string>, d: nat)
    requires d <= |stack|
  {
    && (rooted ==> d == 0)
    && (forall i :: 0 <= i < d ==> stack[i] == "..")
    && AllPlain(stack[d..])
  }

  // ----- splitting and joining -----

  lemma {:induction false} FirstSlashAt(s: string, k: nat)
    requires k <= |s| && (forall i :: 0 <= i < k ==> s[i] != '/') && (k < |s| ==> s[k] == '/')
    ensures FirstSlash(s) == k
  {
    if k > 0 {
      FirstSlashAt(s[1..], k - 1);
    }
  }

  lemma SplitCons(part: string, rest: string)
    requires SlashFree(part)
    ensures Split(part + "/" + rest) == [part] + Split(rest)
  {
    var s := part + "/" + rest;
    FirstSlashAt(s, |part|);
    assert s[..|part|] == part && s[|part| + 1..] == rest;
    assert s[|part|] == '/';
  }

  lemma SplitOne(part: string)
    requires SlashFree(part)
    ensures Split(part) == [part]
  {
    FirstSlashAt(part, |part|);
  }

  lemma {:induction false} SplitIsSlashFree(s: string)
    ensures forall i :: 0 <= i < |Split(s)| ==> SlashFree(Split(s)[i])
    decreases |s|
  {
    var k := FirstSlash(s);
    FirstSlashStops(s);
    if k < |s| {
      SplitIsSlashFree(s[k + 1..]);
    } else {
      assert s[..k] == s;
    }
  }

  lemma {:induction false} SplitAppend(a: string, b: string)
    ensures Split(a + "/" + b) == Split(a) + Split(b)
    decreases |a|
  {
    var k := FirstSlash(a);
    FirstSlashStops(a);
    if k == |a| {
      assert a[..k] == a;
      SplitCons(a, b);
    } else {
      var head, tail := a[..k], a[k + 1..];
      SplitAppend(tail, b);
      assert a + "/" + b == head + "/" + (tail + "/" + b);
      SplitCons(head, tail + "/" + b);
      assert Split(a) == [head] + Split(tail);
      assert [head] + (Split(tail) + Split(b)) == [head] + Split(tail) + Split(b);
    }
  }

  lemma {:induction false} SplitOfJoin(parts: seq<string>)
    requires parts != [] && forall i :: 0 <= i < |parts| ==> SlashFree(parts[i])
    ensures Split(Join(parts)) == parts
  {
    if |parts| == 1 {
      SplitOne(parts[0]);
    } else {
      var before, last := parts[..|parts| - 1], parts[|parts| - 1];
      SplitOfJoin(before);
      SplitAppend(Join(before), last);
      SplitOne(last);
      assert parts == before + [last];
    }
  }

  lemma {:induction false} JoinAppend(a: seq<string>, b: seq<string>)
    requires a != [] && b != []
    ensures Join(a + b) == Join(a) + "/" + Join(b)
    decreases |b|
  {
    assert (a + b)[|a + b| - 1] == b[|b| - 1];
    if |b| == 1 {
      assert (a + b)[..|a + b| - 1] == a;
    } else {
      assert (a + b)[..|a + b| - 1] == a + b[..|b| - 1];
      JoinAppend(a, b[..|b| - 1]);
    }
  }

  lemma CutAtSlash(s: string)
    requires FirstSlash(s) < |s|
    ensures var k := FirstSlash(s); s == s[..k] + "/" + s[k + 1..]
  {
    FirstSlashStops(s);
    CutAround(s, FirstSlash(s));
  }

  lemma CutAround(s: string, k: nat)
    requires k < |s|
    ensures s == s[..k] + [s[k]] + s[k + 1..]
  {
  }

  lemma {:induction false} JoinOfSplit(s: string)
    ensures Join(Split(s)) == s
    decreases |s|
  {
    var k := FirstSlash(s);
    if k < |s| {
      CutAtSlash(s);
      JoinOfSplit(s[k + 1..]);
      JoinAppend([s[..k]], Split(s[k + 1..]));
    }
  }

  // ----- stacks -----

  lemma PushKeepsShape(rooted: bool, stack: seq<string>, part: string, d: nat) returns (e: nat)
    requires d <= |stack| && Shape(rooted, stack, d) && SlashFree(part)
    ensures e <= |Push(rooted, stack, part)| && Shape(rooted, Push(rooted, stack, part), e)
  {
    var next := Push(rooted, stack, part);
    e := d;
    if part == ".." {
      if d == |stack| {
        e := if rooted then d else d + 1;
      } else {
        assert stack[d..][|stack| - 1 - d] == stack[|stack| - 1];
        assert next[d..] == stack[d..][..|stack| - 1 - d];
      }
    } else if part !in {"", "."} {
      assert next[d..] == stack[d..] + [part];
    }
  }

  lemma {:induction false} WalkKeepsShape(rooted: bool, stack: seq<string>, parts: seq<string>)
    requires WellFormed(rooted, stack) && forall i :: 0 <= i < |parts| ==> SlashFree(parts[i])
    ensures WellFormed(rooted, Walk(rooted, stack, parts))
    decreases |parts|
  {
    if parts != [] {
      var d: nat :| d <= |stack| && Shape(rooted, stack, d);
      var e := PushKeepsShape(rooted, stack, parts[0], d);
      WalkKeepsShape(rooted, Push(rooted, stack, parts[0]), parts[1..]);
    }
  }

  lemma StackIsWellFormed(p: string)
    ensures WellFormed(Rooted(p), StackOf(p))
  {
    assert Shape(Rooted(p), [], 0);
    SplitIsSlashFree(p);
    WalkKeepsShape(Rooted(p), [], Split(p));
  }

  lemma {:induction false} WalkAppend(rooted: bool, stack: seq<string>, a: seq<string>, b: seq<string>)
    ensures Walk(rooted, stack, a + b) == Walk(rooted, Walk(rooted, stack, a), b)
    decreases |a|
  {
    if a == [] {
      assert a + b == b;
    } else {
      assert (a + b)[1..] == a[1..] + b;
      WalkAppend(rooted, Push(rooted, stack, a[0]), a[1..], b);
    }
  }

  /** Walking plain components only pushes. */
  lemma {:induction false} WalkPlain(rooted: bool, stack: seq<string>, parts: seq<string>)
    requires AllPlain(parts)
    ensures Walk(rooted, stack, parts) == stack + parts
    decreases |parts|
  {
    if parts != [] {
      WalkPlain(rooted, stack + [parts[0]], parts[1..]);
      assert stack + [parts[0]] + parts[1..] == stack + parts;
    }
  }

  lemma PushBack(rooted: bool, stack: seq<string>, k: nat)
    requires WellFormed(rooted, stack) && k < |stack|
    ensures Push(rooted, stack[..k], stack[k]) == stack[..k + 1]
  {
    var d: nat :| d <= |stack| && Shape(rooted, stack, d);
    if k >= d {
      assert stack[d..][k - d] == stack[k];
    } else {
      assert stack[k] == ".." && (k > 0 ==> stack[..k][k - 1] == "..");
    }
    assert stack[..k] + [stack[k]] == stack[..k + 1];
  }

  /** Walking a well-formed stack from the bottom rebuilds it. */
  lemma {:induction false} WalkOfStack(rooted: bool, stack: seq<string>, k: nat)
    requires WellFormed(rooted, stack) && k <= |stack|
    ensures Walk(rooted, stack[..k], stack[k..]) == stack
    decreases |stack| - k
  {
    if k < |stack| {
      var d: nat :| d <= |stack| && Shape(rooted, stack, d);
      PushBack(rooted, stack, k);
      assert stack[k..][1..] == stack[k + 1..];
      WalkOfStack(rooted, stack, k + 1);
    }
  }

  lemma PartsAreSlashFree(rooted: bool, stack: seq<string>)
    requires WellFormed(rooted, stack)
    ensures forall i :: 0 <= i < |stack| ==> SlashFree(stack[i]) && stack[i] !in {"", "."}
  {
    var d: nat :| d <= |stack| && Shape(rooted, stack, d);
    forall i | 0 <= i < |stack| ensures SlashFree(stack[i]) && stack[i] !in {"", "."} {
      if i >= d {
        assert stack[d..][i - d] == stack[i];
      }
    }
  }

  lemma JoinIsNotRooted(rooted: bool, stack: seq<string>)
    requires WellFormed(rooted, stack)
    ensures !Rooted(Join(stack))
    ensures Join(stack) == "" <==> stack == []
  {
    PartsAreSlashFree(rooted, stack);
    if stack != [] {
      SplitOfJoin(stack);
      var k := FirstSlash(Join(stack));
      assert Join(stack)[..k] == stack[0] by { assert Split(Join(stack))[0] == stack[0]; }
    }
  }

  lemma SplitOfBody(rooted: bool, stack: seq<string>)
    requires WellFormed(rooted, stack) && stack != []
    ensures Split(Body(rooted, stack)) == (if rooted then [""] else []) + stack
  {
    PartsAreSlashFree(rooted, stack);
    SplitOfJoin(stack);
    if rooted {
      assert Body(rooted, stack) == "" + "/" + Join(stack);
      SplitCons("", Join(stack));
    } else {
      assert [] + stack == stack;
    }
  }

  lemma RenderedEmptyStack(rooted: bool)
    ensures Rooted(Render(rooted, [])) == rooted && StackOf(Render(rooted, [])) == []
  {
    SplitOne("");
    WalkSkipsEmpty(rooted, [], []);
    assert [""] + [] == [""];
    if rooted {
      assert Render(rooted, []) == "/" == "" + "/" + "";
      SplitCons("", "");
      WalkSkipsEmpty(rooted, [], [""]);
    } else {
      assert Render(rooted, []) == ".";
      SplitOne(".");
      assert ["."][1..] == [];
    }
  }

  /** A rendered stack is read back as itself. */
  lemma RenderedStack(rooted: bool, stack: seq<string>)
    requires WellFormed(rooted, stack)
    ensures Rooted(Render(rooted, stack)) == rooted && StackOf(Render(rooted, stack)) == stack
  {
    if stack == [] {
      RenderedEmptyStack(rooted);
    } else {
      JoinIsNotRooted(rooted, stack);
      var p := Render(rooted, stack);
      assert p == Body(rooted, stack);
      SplitOfBody(rooted, stack);
      WalkOfStack(rooted, stack, 0);
      assert stack[..0] == [] && stack[0..] == stack && [] + stack == stack;
      WalkSkipsEmpty(rooted, [], stack);
      assert Rooted(p) == rooted;
      assert StackOf(p) == Walk(rooted, [], Split(p));
    }
  }

  lemma WalkSkipsEmpty(rooted: bool, stack: seq<string>, parts: seq<string>)
    ensures Walk(rooted, stack, [""] + parts) == Walk(rooted, stack, parts)
  {
    assert ([""] + parts)[1..] == parts;
  }

  /** Cleaning is idempotent. */
  lemma CleanIsIdempotent(p: string)
    ensures CleanSpec(CleanSpec(p)) == CleanSpec(p)
  {
    StackIsWellFormed(p);
    RenderedStack(Rooted(p), StackOf(p));
  }

  // ----- path.Clean, the one-pass scan -----

  lemma JoinSnoc(stack: seq<string>, part: string)
    ensures Join(stack + [part]) == if stack == [] then part else Join(stack) + "/" + part
  {
    if stack != [] {
      assert (stack + [part])[..|stack|] == stack;
    }
  }

  /** Walking the rest of a path from the start of a component: the component is pushed, and
      the walk goes on at the slash behind it. */
  lemma WalkOnePart(rooted: bool, stack: seq<string>, rest: string)
    ensures var k := FirstSlash(rest);
      Walk(rooted, stack, Split(rest)) == Walk(rooted, Push(rooted, stack, rest[..k]), Split(rest[k..]))
  {
    var k := FirstSlash(rest);
    FirstSlashStops(rest);
    var next := Push(rooted, stack, rest[..k]);
    if k == |rest| {
      SplitOne("");
      assert rest[..k] == rest && rest[k..] == "";
      WalkSkipsEmpty(rooted, next, []);
      assert [rest][1..] == [] && [""] + [] == [""];
      assert Walk(rooted, next, [""]) == Walk(rooted, next, []);
      assert Walk(rooted, stack, [rest]) == Walk(rooted, next, [rest][1..]);
    } else {
      var tail := rest[k + 1..];
      assert rest[k..] == "" + "/" + tail;
      SplitCons("", tail);
      WalkSkipsEmpty(rooted, next, Split(tail));
      assert ([rest[..k]] + Split(tail))[1..] == Split(tail);
    }
  }

  /** At a slash the walk just moves on. */
  lemma WalkOneSlash(rooted: bool, stack: seq<string>, tail: string)
    ensures Walk(rooted, stack, Split("/" + tail)) == Walk(rooted, stack, Split(tail))
  {
    assert "/" + tail == "" + "/" + tail;
    SplitCons("", tail);
    WalkSkipsEmpty(rooted, stack, Split(tail));
  }

  function Separator(stack: seq<string>): string {
    if stack == [] then "" else "/"
  }

  /** Writing one more component. */
  lemma BodySnoc(rooted: bool, stack: seq<string>, part: string)
    ensures Body(rooted, stack + [part]) == Body(rooted, stack) + Separator(stack) + part
  {
    JoinSnoc(stack, part);
    if stack != [] {
      assert "/" + (Join(stack) + "/" + part) == "/" + Join(stack) + "/" + part;
    }
  }

  lemma AboveBottom(rooted: bool, stack: seq<string>, d: nat)
    requires d <= |stack| && Shape(rooted, stack, d)
    ensures forall i :: d <= i < |stack| ==> Plain(stack[i])
  {
    assert forall i :: d <= i < |stack| ==> stack[d..][i - d] == stack[i];
  }

  lemma BodySnocGrows(rooted: bool, stack: seq<string>, part: string)
    requires part != ""
    ensures |Body(rooted, stack)| < |Body(rooted, stack + [part])|
  {
    BodySnoc(rooted, stack, part);
  }

  lemma {:induction false} BodyGrows(rooted: bool, stack: seq<string>, d: nat, m: nat)
    requires d < m <= |stack| && forall i :: d <= i < |stack| ==> stack[i] != ""
    ensures |Body(rooted, stack[..d])| < |Body(rooted, stack[..m])|
    decreases m
  {
    assert stack[..m] == stack[..m - 1] + [stack[m - 1]];
    BodySnocGrows(rooted, stack[..m - 1], stack[m - 1]);
    if d < m - 1 {
      BodyGrows(rooted, stack, d, m - 1);
    }
  }

  /** The backward scan over what has been written: to the last slash, but not past `stop`. */
  function LastBreak(out: string, stop: nat): (w: nat)
    requires stop < |out|
    ensures stop <= w < |out| && (w == stop || out[w] == '/')
    ensures forall i :: w < i < |out| ==> out[i] != '/'
  {
    var w := |out| - 1;
    if w > stop && out[w] != '/' then LastBreak(out[..w], stop) else w
  }

  predicate DotAt(path: string, r: nat) {
    r < |path| && path[r] == '.' && (r + 1 == |path| || path[r + 1] == '/')
  }

  predicate UpAt(path: string, r: nat) {
    r + 1 < |path| && path[r] == '.' && path[r + 1] == '.' && (r + 2 == |path| || path[r + 2] == '/')
  }

  /** Where the scan stands: the next character to read, what has been written, and how far
      ".." may take back from it. */
  datatype Scan = Scan(r: nat, out: string, dotdot: nat)

  /** One round of the scan. */
  function Advance(path: string, s: Scan): (t: Scan)
    requires s.r < |path|
    ensures s.r < t.r <= |path|
  {
    if path[s.r] == '/' || DotAt(path, s.r) then s.(r := s.r + 1)
    else if UpAt(path, s.r) then
      if |s.out| > s.dotdot then Scan(s.r + 2, s.out[..LastBreak(s.out, s.dotdot)], s.dotdot)
      else if Rooted(path) then s.(r := s.r + 2)
      else
        var grown := (if |s.out| > 0 then s.out + "/" else s.out) + "..";
        Scan(s.r + 2, grown, |grown|)
    else
      var k := FirstSlash(path[s.r..]);
      assert k > 0;
      var base := if |s.out| != (if Rooted(path) then 1 else 0) then s.out + "/" else s.out;
      Scan(s.r + k, base + path[s.r..s.r + k], s.dotdot)
  }

  function Written(path: string, s: Scan): string
    decreases |path| - s.r
  {
    if s.r >= |path| then s.out else Written(path, Advance(path, s))
  }

  function ScanStart(path: string): Scan {
    if Rooted(path) then Scan(1, "/", 1) else Scan(0, "", 0)
  }

  /** The scan's backward loop. */
  method BackUp(out: string, stop: nat) returns (w: nat)
    requires stop < |out|
    ensures w == LastBreak(out, stop)
  {
    w := |out| - 1;
    assert out[..w + 1] == out;
    while w > stop && out[w] != '/'
      invariant stop <= w < |out|
      invariant LastBreak(out, stop) == LastBreak(out[..w + 1], stop)
    {
      assert out[..w + 1][..w] == out[..w];
      w := w - 1;
    }
  }

  /** The scan's inner loop: copies one component. */
  method CopyPart(path: string, from: nat, written: string) returns (r: nat, out: string)
    requires from <= |path|
    ensures r == from + FirstSlash(path[from..]) && r <= |path| && out == written + path[from..r]
  {
    r, out := from, written;
    while r < |path| && path[r] != '/'
      invariant from <= r <= |path| && out == written + path[from..r]
      invariant forall i :: from <= i < r ==> path[i] != '/'
    {
      assert path[from..r + 1] == path[from..r] + [path[r]];
      out := out + [path[r]];
      r := r + 1;
    }
    assert forall i :: 0 <= i < r - from ==> path[from..][i] == path[from + i];
    assert r < |path| ==> path[from..][r - from] == path[r];
    FirstSlashAt(path[from..], r - from);
  }

  /** One round of the scan's loop. */
  method Round(path: string, rooted: bool, r: nat, out: string, dotdot: nat)
    returns (r': nat, out': string, dotdot': nat)
    requires r < |path| && rooted == Rooted(path)
    ensures Scan(r', out', dotdot') == Advance(path, Scan(r, out, dotdot))
  {
    var n := |path|;
    r', out', dotdot' := r, out, dotdot;
    if path[r] == '/' {
      r' := r + 1;
    } else if path[r] == '.' && (r + 1 == n || path[r + 1] == '/') {
      r' := r + 1;
    } else if path[r] == '.' && r + 1 < n && path[r + 1] == '.' && (r + 2 == n || path[r + 2] == '/') {
      r' := r + 2;
      if |out| > dotdot {
        var w := BackUp(out, dotdot);
        out' := out[..w];
      } else if !rooted {
        if |out| > 0 {
          out' := out + "/";
        }
        out' := out' + "..";
        dotdot' := |out'|;
      }
    } else {
      if (rooted && |out| != 1) || (!rooted && |out| != 0) {
        out' := out + "/";
      }
      r', out' := CopyPart(path, r, out');
    }
  }

  /** `path.Clean` reads the path once, left to right, and writes its result as it goes. */
  method Clean(path: string) returns (cleaned: string)
    ensures cleaned == CleanSpec(path)
  {
    ScanMeansClean(path);
    if path == "" {
      return ".";
    }
    var rooted := path[0] == '/';
    var out := "";
    var r, dotdot: nat := 0, 0;
    if rooted {
      out := "/";
      r, dotdot := 1, 1;
    }
    while r < |path|
      invariant r <= |path|
      invariant Written(path, ScanStart(path)) == Written(path, Scan(r, out, dotdot))
    {
      r, out, dotdot := Round(path, rooted, r, out, dotdot);
    }
    if |out| == 0 {
      return ".";
    }
    return out;
  }

  /** The scan so far renders the stack of what has been read, whose bottom `d` entries are ".."
      and end at `dotdot`; walking the rest gives the `whole` stack. */
  ghost predicate Scanned(path: string, s: Scan, stack: seq<string>, d: nat, whole: seq<string>) {
    && s.r <= |path| && d <= |stack|
    && Shape(Rooted(path), stack, d)
    && s.out == Body(Rooted(path), stack)
    && s.dotdot == |Body(Rooted(path), stack[..d])|
    && whole == Walk(Rooted(path), stack, Split(path[s.r..]))
  }

  lemma ScanMeansClean(path: string)
    ensures path == "" ==> CleanSpec(path) == "."
    ensures path != "" ==> CleanSpec(path) == var out := Written(path, ScanStart(path)); if out == "" then "." else out
  {
    if path == "" {
      SplitOne("");
    } else {
      ScanStarts(path);
      WrittenIsBody(path, ScanStart(path), [], 0, StackOf(path));
    }
  }

  lemma {:induction false} WrittenIsBody(path: string, s: Scan, stack: seq<string>, d: nat, whole: seq<string>)
    requires Scanned(path, s, stack, d, whole)
    ensures Written(path, s) == Body(Rooted(path), whole)
    decreases |path| - s.r
  {
    if s.r == |path| {
      ScanEnds(path, s, stack, d, whole);
    } else {
      var next, e := ScanAdvances(path, s, stack, d, whole);
      WrittenIsBody(path, Advance(path, s), next, e, whole);
    }
  }

  lemma ScanAdvances(path: string, s: Scan, stack: seq<string>, d: nat, whole: seq<string>)
    returns (next: seq<string>, e: nat)
    requires Scanned(path, s, stack, d, whole) && s.r < |path|
    ensures Scanned(path, Advance(path, s), next, e, whole)
  {
    next, e := stack, d;
    if path[s.r] == '/' {
      ScanSlash(path, s, stack, d, whole);
    } else if DotAt(path, s.r) {
      ScanDot(path, s, stack, d, whole);
    } else if UpAt(path, s.r) {
      if |s.out| > s.dotdot {
        ScanUpPops(path, s, stack, d, whole);
        next := stack[..|stack| - 1];
      } else if Rooted(path) {
        ScanUpStays(path, s, stack, d, whole);
      } else {
        ScanUpPushes(path, s, stack, d, whole);
        next, e := stack + [".."], d + 1;
      }
    } else {
      var k := FirstSlash(path[s.r..]);
      ScanPart(path, s, k, path[s.r..s.r + k], stack, d, whole);
      next := stack + [path[s.r..s.r + k]];
    }
  }

  lemma ScanStarts(path: string)
    requires path != ""
    ensures Scanned(path, ScanStart(path), [], 0, StackOf(path))
  {
    assert path[0..] == path;
    if Rooted(path) {
      WalkOneSlash(true, [], path[1..]);
      assert path == "/" + path[1..];
    }
  }

  lemma ScanEnds(path: string, s: Scan, stack: seq<string>, d: nat, whole: seq<string>)
    requires s.r == |path| && Scanned(path, s, stack, d, whole)
    ensures whole == stack
  {
    assert path[|path|..] == "";
    SplitOne("");
    WalkSkipsEmpty(Rooted(path), stack, []);
    assert [""] + [] == [""];
  }

  lemma WalkSlashAt(path: string, rooted: bool, r: nat, stack: seq<string>)
    requires r < |path| && path[r] == '/'
    ensures Walk(rooted, stack, Split(path[r..])) == Walk(rooted, stack, Split(path[r + 1..]))
  {
    WalkOneSlash(rooted, stack, path[r + 1..]);
    assert path[r..] == "/" + path[r + 1..];
  }

  lemma ScanSlash(path: string, s: Scan, stack: seq<string>, d: nat, whole: seq<string>)
    requires s.r < |path| && path[s.r] == '/' && Scanned(path, s, stack, d, whole)
    ensures Scanned(path, Advance(path, s), stack, d, whole)
  {
    WalkSlashAt(path, Rooted(path), s.r, stack);
  }

  /** The component at `r` is pushed and the walk goes on behind it. */
  lemma WalkPartAt(path: string, rooted: bool, r: nat, k: nat, stack: seq<string>)
    requires r <= |path| && k == FirstSlash(path[r..])
    ensures Walk(rooted, stack, Split(path[r..]))
         == Walk(rooted, Push(rooted, stack, path[r..r + k]), Split(path[r + k..]))
  {
    WalkOnePart(rooted, stack, path[r..]);
    assert path[r..][k..] == path[r + k..] && path[r..][..k] == path[r..r + k];
  }

  lemma WalkDotAt(path: string, rooted: bool, r: nat, stack: seq<string>)
    requires DotAt(path, r)
    ensures Walk(rooted, stack, Split(path[r..])) == Walk(rooted, stack, Split(path[r + 1..]))
  {
    FirstSlashAt(path[r..], 1);
    WalkPartAt(path, rooted, r, 1, stack);
    assert path[r..r + 1] == ".";
  }

  lemma ScanDot(path: string, s: Scan, stack: seq<string>, d: nat, whole: seq<string>)
    requires DotAt(path, s.r) && Scanned(path, s, stack, d, whole)
    ensures Scanned(path, Advance(path, s), stack, d, whole)
  {
    WalkDotAt(path, Rooted(path), s.r, stack);
  }

  lemma WalkUpAt(path: string, rooted: bool, r: nat, stack: seq<string>)
    requires UpAt(path, r)
    ensures Walk(rooted, stack, Split(path[r..])) == Walk(rooted, Push(rooted, stack, ".."), Split(path[r + 2..]))
  {
    FirstSlashAt(path[r..], 2);
    WalkPartAt(path, rooted, r, 2, stack);
    assert path[r..r + 2] == "..";
  }

  lemma AdvanceUpPops(path: string, s: Scan)
    requires UpAt(path, s.r) && |s.out| > s.dotdot
    ensures Advance(path, s) == Scan(s.r + 2, s.out[..LastBreak(s.out, s.dotdot)], s.dotdot)
  {
  }

  lemma ScanUpPops(path: string, s: Scan, stack: seq<string>, d: nat, whole: seq<string>)
    requires UpAt(path, s.r) && Scanned(path, s, stack, d, whole) && |s.out| > s.dotdot
    ensures |stack| > 0 && Scanned(path, Advance(path, s), stack[..|stack| - 1], d, whole)
  {
    AdvanceUpPops(path, s);
    WalkUpAt(path, Rooted(path), s.r, stack);
    StackHasMore(Rooted(path), stack, d);
    PopKeepsShape(Rooted(path), stack, d);
    BreakCutsLastPart(Rooted(path), stack, d);
  }

  lemma BreakCutsLastPart(rooted: bool, stack: seq<string>, d: nat)
    requires d < |stack| && Shape(rooted, stack, d) && |Body(rooted, stack[..d])| < |Body(rooted, stack)|
    ensures var out := Body(rooted, stack);
      out[..LastBreak(out, |Body(rooted, stack[..d])|)] == Body(rooted, stack[..|stack| - 1])
  {
    var before, last := stack[..|stack| - 1], stack[|stack| - 1];
    assert stack == before + [last];
    AboveBottom(rooted, stack, d);
    BodySnoc(rooted, before, last);
    assert before[..d] == stack[..d] && before[..|before|] == before;
    if d < |before| {
      BodyGrows(rooted, before, d, |before|);
    }
    CutAt(Body(rooted, before), Separator(before), last, |Body(rooted, stack[..d])|);
  }

  /** The backward scan over text that ends in a component stops at its separator. */
  lemma CutAt(before: string, separator: string, last: string, stop: nat)
    requires separator in {"", "/"} && last != "" && SlashFree(last)
    requires stop <= |before| && (separator == "" ==> stop == |before|)
    ensures var out := before + separator + last; stop < |out| && out[..LastBreak(out, stop)] == before
  {
    var out := before + separator + last;
    var w := LastBreak(out, stop);
    assert forall i :: |before| + |separator| <= i < |out| ==> out[i] == last[i - |before| - |separator|];
    assert separator == "/" ==> out[|before|] == '/';
    assert out[..|before|] == before;
  }

  lemma ScanUpStays(path: string, s: Scan, stack: seq<string>, d: nat, whole: seq<string>)
    requires UpAt(path, s.r) && Scanned(path, s, stack, d, whole) && |s.out| <= s.dotdot && Rooted(path)
    ensures Scanned(path, Advance(path, s), stack, d, whole)
  {
    WalkUpAt(path, Rooted(path), s.r, stack);
    StackIsBottom(Rooted(path), stack, d);
  }

  lemma AdvanceUpPushes(path: string, s: Scan)
    requires UpAt(path, s.r) && |s.out| <= s.dotdot && !Rooted(path)
    ensures var out := s.out + (if |s.out| > 0 then "/" else "") + "..";
      Advance(path, s) == Scan(s.r + 2, out, |out|)
  {
    assert s.out + "" == s.out;
  }

  lemma ScannedUp(path: string, s: Scan, t: Scan, stack: seq<string>, whole: seq<string>)
    requires Scanned(path, s, stack, |stack|, whole) && !Rooted(path) && t.r <= |path| && t.dotdot == |t.out|
    requires forall i :: 0 <= i < |stack| ==> stack[i] == ".."
    requires t.out == s.out + (if |s.out| > 0 then "/" else "") + ".."
    requires whole == Walk(false, stack + [".."], Split(path[t.r..]))
    ensures Scanned(path, t, stack + [".."], |stack| + 1, whole)
  {
    PushUpKeepsShape(stack);
  }

  lemma ScanUpPushes(path: string, s: Scan, stack: seq<string>, d: nat, whole: seq<string>)
    requires UpAt(path, s.r) && Scanned(path, s, stack, d, whole) && |s.out| <= s.dotdot && !Rooted(path)
    ensures Scanned(path, Advance(path, s), stack + [".."], d + 1, whole)
  {
    AdvanceUpPushes(path, s);
    WalkUpAt(path, false, s.r, stack);
    StackIsBottom(false, stack, d);
    ScannedUp(path, s, Advance(path, s), stack, whole);
  }

  /** The scan's default case: a component `part` of length `k` starts at `r`. */
  ghost predicate PartAt(path: string, r: nat, k: nat, part: string) {
    && r < |path| && path[r] != '/' && !UpAt(path, r) && !DotAt(path, r)
    && k == FirstSlash(path[r..]) && part == path[r..r + k]
  }

  lemma AdvanceOverPart(path: string, s: Scan, k: nat, part: string)
    requires PartAt(path, s.r, k, part)
    ensures var separator := if |s.out| != (if Rooted(path) then 1 else 0) then "/" else "";
      Advance(path, s) == Scan(s.r + k, s.out + separator + part, s.dotdot)
  {
    assert s.out + "" == s.out;
  }

  lemma WalkPlainAt(path: string, rooted: bool, r: nat, k: nat, part: string, stack: seq<string>)
    requires PartAt(path, r, k, part)
    ensures Plain(part) && Push(rooted, stack, part) == stack + [part]
    ensures Walk(rooted, stack, Split(path[r..])) == Walk(rooted, stack + [part], Split(path[r + k..]))
  {
    PartIsPlain(path, r, k);
    WalkPartAt(path, rooted, r, k, stack);
  }

  lemma ScannedPart(path: string, s: Scan, k: nat, part: string, stack: seq<string>, d: nat, whole: seq<string>)
    requires Scanned(path, s, stack, d, whole) && Plain(part) && s.r + k <= |path|
    requires whole == Walk(Rooted(path), stack + [part], Split(path[s.r + k..]))
    ensures var separator := if |s.out| != (if Rooted(path) then 1 else 0) then "/" else "";
      Scanned(path, Scan(s.r + k, s.out + separator + part, s.dotdot), stack + [part], d, whole)
  {
    PushPlainKeepsShape(Rooted(path), stack, d, part);
    PushPlainText(Rooted(path), stack, part);
  }

  lemma ScanPart(path: string, s: Scan, k: nat, part: string, stack: seq<string>, d: nat, whole: seq<string>)
    requires PartAt(path, s.r, k, part) && Scanned(path, s, stack, d, whole)
    ensures Scanned(path, Advance(path, s), stack + [part], d, whole)
  {
    WalkPlainAt(path, Rooted(path), s.r, k, part, stack);
    ScannedPart(path, s, k, part, stack, d, whole);
    AdvanceOverPart(path, s, k, part);
  }

  lemma StackHasMore(rooted: bool, stack: seq<string>, d: nat)
    requires d <= |stack| && |Body(rooted, stack)| > |Body(rooted, stack[..d])|
    ensures d < |stack|
  {
    assert stack[..|stack|] == stack;
  }

  lemma StackIsBottom(rooted: bool, stack: seq<string>, d: nat)
    requires d <= |stack| && Shape(rooted, stack, d) && |Body(rooted, stack)| <= |Body(rooted, stack[..d])|
    ensures d == |stack|
    ensures forall i :: 0 <= i < |stack| ==> stack[i] == ".."
    ensures Push(rooted, stack, "..") == if rooted then stack else stack + [".."]
  {
    assert stack[..|stack|] == stack;
    if d < |stack| {
      AboveBottom(rooted, stack, d);
      BodyGrows(rooted, stack, d, |stack|);
    }
  }

  lemma PushUpKeepsShape(stack: seq<string>)
    requires forall i :: 0 <= i < |stack| ==> stack[i] == ".."
    ensures Shape(false, stack + [".."], |stack| + 1)
    ensures (stack + [".."])[..|stack| + 1] == stack + [".."]
    ensures Body(false, stack + [".."]) == Body(false, stack) + (if |Body(false, stack)| > 0 then "/" else "") + ".."
  {
    BodySnoc(false, stack, "..");
    JoinIsEmpty(stack);
  }

  lemma PopKeepsShape(rooted: bool, stack: seq<string>, d: nat)
    requires d < |stack| && Shape(rooted, stack, d)
    ensures Shape(rooted, stack[..|stack| - 1], d)
    ensures Push(rooted, stack, "..") == stack[..|stack| - 1]
    ensures stack[..|stack| - 1][..d] == stack[..d]
  {
    assert stack[d..][|stack| - 1 - d] == stack[|stack| - 1];
    assert stack[..|stack| - 1][d..] == stack[d..][..|stack| - 1 - d];
  }

  lemma PushPlainKeepsShape(rooted: bool, stack: seq<string>, d: nat, part: string)
    requires d <= |stack| && Shape(rooted, stack, d) && Plain(part)
    ensures Shape(rooted, stack + [part], d)
    ensures (stack + [part])[..d] == stack[..d]
  {
    assert (stack + [part])[d..] == stack[d..] + [part];
  }

  lemma PushPlainText(rooted: bool, stack: seq<string>, part: string)
    requires WellFormed(rooted, stack)
    ensures Body(rooted, stack + [part])
         == Body(rooted, stack) + (if |Body(rooted, stack)| != (if rooted then 1 else 0) then "/" else "") + part
  {
    JoinIsNotRooted(rooted, stack);
    BodySnoc(rooted, stack, part);
  }

  lemma {:induction false} JoinIsEmpty(stack: seq<string>)
    requires forall i :: 0 <= i < |stack| ==> stack[i] != ""
    ensures Join(stack) == "" <==> stack == []
  {
    if stack != [] {
      assert stack[|stack| - 1] != "";
    }
  }

  /** The scan's default case meets exactly the plain components. */
  lemma PartIsPlain(path: string, r: nat, k: nat)
    requires r < |path| && path[r] != '/' && k == FirstSlash(path[r..])
    requires !DotAt(path, r) && !UpAt(path, r)
    ensures k > 0 && Plain(path[r..r + k])
  {
    var rest := path[r..];
    FirstSlashStops(rest);
    assert rest[..k] == path[r..r + k];
    assert forall i :: 0 <= i < |rest| ==> rest[i] == path[r + i];
  }
}
