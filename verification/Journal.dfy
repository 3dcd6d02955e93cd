/** The journal: one line of JSON per event, appended to a file, and the window of recent events
    read back from it.  A character stands for a byte; the JSON codec is a parameter. */
module Journal {
  import opened Text

  /** The longest line the reader's scanner accepts, without its newline. */
  const MAX_LINE := 65535

  datatype Event = Event(runID: string, rest: string)

  datatype Codec = Codec(encode: Event -> string, decode: string -> Option<Event>)

  /** What JSON gives: every event on one line that decodes to it. */
  ghost predicate Lossless(codec: Codec) {
    forall e: Event :: Encodes(codec, e)
  }

  ghost predicate Encodes(codec: Codec, e: Event) {
    var line := codec.encode(e);
    line != "" && '\n' !in line && line[|line| - 1] != '\r' && codec.decode(line) == Some(e)
  }

  datatype ReadResult = Ok(events: seq<Event>) | Malformed | TooLong

  // ----- lines -----

  function FirstNewline(s: string): (k: nat)
    ensures k <= |s| && '\n' !in s[..k] && (k < |s| ==> s[k] == '\n')
  {
    if s == "" || s[0] == '\n' then 0
    else
      var k := FirstNewline(s[1..]);
      assert s[..k + 1] == [s[0]] + s[1..][..k];
      k + 1
  }

  /** The scanner's lines; a last line without a newline counts. */
  function LinesOf(s: string): seq<string>
    decreases |s|
  {
    var k := FirstNewline(s);
    if s == "" then []
    else if k == |s| then [s]
    else [s[..k]] + LinesOf(s[k + 1..])
  }

  function WithoutReturn(line: string): string {
    if line != "" && line[|line| - 1] == '\r' then line[..|line| - 1] else line
  }

  // ----- reading -----

  predicate Belongs(e: Event, runID: string) {
    runID == "" || e.runID == runID
  }

  function LastOf(events: seq<Event>, limit: nat): seq<Event> {
    if |events| > limit then events[|events| - limit..] else events
  }

  function ReadLines(codec: Codec, lines: seq<string>, runID: string, limit: nat, window: seq<Event>): ReadResult
    decreases |lines|
  {
    if lines == [] then Ok(window)
    else if |lines[0]| > MAX_LINE then TooLong
    else
      match codec.decode(WithoutReturn(lines[0]))
      case None => Malformed
      case Some(e) =>
        ReadLines(codec, lines[1..], runID, limit, if Belongs(e, runID) then LastOf(window + [e], limit) else window)
  }

  class File {
    var content: string

    /** Appends one event; a failing write may leave any part of the line behind. */
    method Append(codec: Codec, e: Event, written: nat) returns (ok: bool)
      modifies this
      ensures var line := codec.encode(e) + "\n";
        ok == (written >= |line|) && content == old(content) + (if ok then line else line[..written])
    {
      var line := codec.encode(e);
      line := line + "\n";
      ok := written >= |line|;
      content := content + if ok then line else line[..written];
    }

    method ReadRecent(codec: Codec, runID: string, limit: int) returns (r: ReadResult)
      ensures r == if limit <= 0 then Ok([]) else ReadLines(codec, LinesOf(content), runID, limit, [])
    {
      if limit <= 0 {
        return Ok([]);
      }
      var lines := LinesOf(content);
      var events: seq<Event> := [];
      for i := 0 to |lines|
        invariant ReadLines(codec, lines, runID, limit, []) == ReadLines(codec, lines[i..], runID, limit, events)
      {
        ReadOneLine(codec, lines, i, runID, limit, events);
        if |lines[i]| > MAX_LINE {
          return TooLong;
        }
        var decoded := codec.decode(WithoutReturn(lines[i]));
        if decoded == None {
          return Malformed;
        }
        events := Collect(decoded.value, runID, limit, events);
      }
      return Ok(events);
    }

    /** The body of the reader's loop, once a line is decoded. */
    static method Collect(event: Event, runID: string, limit: nat, window: seq<Event>) returns (events: seq<Event>)
      ensures events == if Belongs(event, runID) then LastOf(window + [event], limit) else window
    {
      events := window;
      if runID != "" && event.runID != "" && event.runID != runID {
        return;
      }
      if runID != "" && event.runID == "" {
        return;
      }
      events := events + [event];
      if |events| > limit {
        events := events[|events| - limit..];
      }
    }
  }

  lemma ReadOneLine(codec: Codec, lines: seq<string>, i: nat, runID: string, limit: nat, window: seq<Event>)
    requires i < |lines|
    ensures ReadLines(codec, lines[i..], runID, limit, window)
         == if |lines[i]| > MAX_LINE then TooLong
            else match codec.decode(WithoutReturn(lines[i]))
                 case None => Malformed
                 case Some(e) =>
                   ReadLines(codec, lines[i + 1..], runID, limit,
                             if Belongs(e, runID) then LastOf(window + [e], limit) else window)
  {
    assert lines[i..][0] == lines[i] && lines[i..][1..] == lines[i + 1..];
  }

  // ----- what a read gives back -----

  predicate Good(codec: Codec, line: string) {
    |line| <= MAX_LINE && codec.decode(WithoutReturn(line)).Some?
  }

  predicate AllGood(codec: Codec, lines: seq<string>) {
    forall i :: 0 <= i < |lines| ==> Good(codec, lines[i])
  }

  function Decoded(codec: Codec, lines: seq<string>): seq<Event>
    requires AllGood(codec, lines)
  {
    if lines == [] then []
    else
      assert Good(codec, lines[0]);
      [codec.decode(WithoutReturn(lines[0])).value] + Decoded(codec, lines[1..])
  }

  function OfRun(events: seq<Event>, runID: string): seq<Event> {
    if events == [] then []
    else (if Belongs(events[0], runID) then [events[0]] else []) + OfRun(events[1..], runID)
  }

  lemma DropThenAppend(s: seq<Event>, k: nat, t: seq<Event>, j: nat)
    requires k <= |s| && j <= |s| - k + |t|
    ensures (s[k..] + t)[j..] == (s + t)[k + j..]
  {
  }

  lemma LastOfLonger(s: seq<Event>, limit: nat, j: nat)
    requires |s| == limit + j
    ensures LastOf(s, limit) == s[j..]
  {
  }

  /** Sliding the window is cutting the whole once at the end. */
  lemma LastOfSlides(window: seq<Event>, e: Event, later: seq<Event>, limit: nat)
    requires |window| <= limit
    ensures |LastOf(window + [e], limit)| <= limit
    ensures LastOf(LastOf(window + [e], limit) + later, limit) == LastOf(window + [e] + later, limit)
  {
    var grown := window + [e];
    if |grown| > limit {
      var k := |grown| - limit;
      LastOfLonger(grown[k..] + later, limit, |later|);
      LastOfLonger(grown + later, limit, k + |later|);
      DropThenAppend(grown, k, later, |later|);
    }
  }

  lemma Regroup(window: seq<Event>, e: Event, later: seq<Event>)
    ensures window + ([e] + later) == window + [e] + later
    ensures window + ([] + later) == window + later
  {
    assert [] + later == later;
  }

  lemma WindowStep(window: seq<Event>, e: Event, later: seq<Event>, mine: bool, limit: nat)
    requires |window| <= limit
    ensures var next := if mine then LastOf(window + [e], limit) else window;
      |next| <= limit && LastOf(next + later, limit) == LastOf(window + ((if mine then [e] else []) + later), limit)
  {
    LastOfSlides(window, e, later, limit);
    Regroup(window, e, later);
  }

  /** A read succeeds exactly when every line is good, and then gives the last `limit` events of
      the run. */
  lemma {:induction false} ReadIsExact(codec: Codec, lines: seq<string>, runID: string, limit: nat, window: seq<Event>)
    requires |window| <= limit
    ensures ReadLines(codec, lines, runID, limit, window).Ok? <==> AllGood(codec, lines)
    ensures AllGood(codec, lines) ==>
      ReadLines(codec, lines, runID, limit, window).events
      == LastOf(window + OfRun(Decoded(codec, lines), runID), limit)
    decreases |lines|
  {
    if lines == [] {
      assert window + [] == window;
    } else {
      GoodCons(codec, lines);
      if Good(codec, lines[0]) {
        var e := codec.decode(WithoutReturn(lines[0])).value;
        var next := if Belongs(e, runID) then LastOf(window + [e], limit) else window;
        WindowStep(window, e, [], Belongs(e, runID), limit);
        ReadIsExact(codec, lines[1..], runID, limit, next);
        if AllGood(codec, lines) {
          DecodedCons(codec, lines, runID);
          WindowStep(window, e, OfRun(Decoded(codec, lines[1..]), runID), Belongs(e, runID), limit);
        }
      }
    }
  }

  /** A read that fails says what is wrong with the first line that is not good. */
  lemma {:induction false} FirstBadLineDecides(
    codec: Codec, lines: seq<string>, runID: string, limit: nat, window: seq<Event>, k: nat)
    requires k < |lines| && AllGood(codec, lines[..k]) && !Good(codec, lines[k])
    ensures ReadLines(codec, lines, runID, limit, window) == if |lines[k]| > 65535 then TooLong else Malformed
    decreases |lines|
  {
    if k > 0 {
      assert Good(codec, lines[..k][0]);
      var e := codec.decode(WithoutReturn(lines[0])).value;
      assert lines[1..][..k - 1] == lines[..k][1..];
      GoodCons(codec, lines[..k]);
      FirstBadLineDecides(codec, lines[1..], runID, limit,
                          if Belongs(e, runID) then LastOf(window + [e], limit) else window, k - 1);
    }
  }

  /** A good line fits the scanner, and decodes without the carriage return before its newline. */
  lemma GoodReads(codec: Codec, line: string)
    ensures Good(codec, line + "\r") <==> |line| <= 65534 && codec.decode(line).Some?
    ensures line == "" || line[|line| - 1] != '\r' ==>
      (Good(codec, line) <==> |line| <= 65535 && codec.decode(line).Some?)
  {
    assert (line + "\r")[..|line|] == line;
  }

  /** Text without a newline is one line, unless there is none. */
  lemma LastLineCounts(s: string)
    requires '\n' !in s
    ensures LinesOf(s) == if s == "" then [] else [s]
  {
  }

  /** The events of a run are the events that say so, and all of them if no run is named; the last
      ones are the end of the sequence. */
  lemma {:induction false} OfRunReads(events: seq<Event>, runID: string, e: Event)
    ensures e in OfRun(events, runID) <==> e in events && (runID == "" || e.runID == runID)
    ensures runID == "" ==> OfRun(events, runID) == events
  {
    if events != [] {
      OfRunReads(events[1..], runID, e);
      assert events == [events[0]] + events[1..];
    }
  }

  lemma LastOfReads(events: seq<Event>, limit: nat)
    ensures |events| <= limit ==> LastOf(events, limit) == events
    ensures |events| > limit ==>
      |LastOf(events, limit)| == limit && events[..|events| - limit] + LastOf(events, limit) == events
  {
  }

  lemma GoodCons(codec: Codec, lines: seq<string>)
    requires lines != []
    ensures AllGood(codec, lines) <==> Good(codec, lines[0]) && AllGood(codec, lines[1..])
  {
    assert lines == [lines[0]] + lines[1..];
  }

  lemma DecodedCons(codec: Codec, lines: seq<string>, runID: string)
    requires lines != [] && AllGood(codec, lines)
    ensures Good(codec, lines[0])
    ensures var e := codec.decode(WithoutReturn(lines[0])).value;
      OfRun(Decoded(codec, lines), runID)
      == (if Belongs(e, runID) then [e] else []) + OfRun(Decoded(codec, lines[1..]), runID)
  {
    var e, rest := codec.decode(WithoutReturn(lines[0])).value, Decoded(codec, lines[1..]);
    assert ([e] + rest)[1..] == rest;
  }

  // ----- what has been appended comes back -----

  function Written(codec: Codec, events: seq<Event>): string {
    if events == [] then "" else codec.encode(events[0]) + "\n" + Written(codec, events[1..])
  }

  lemma LinesCons(line: string, rest: string)
    requires '\n' !in line
    ensures LinesOf(line + "\n" + rest) == [line] + LinesOf(rest)
  {
    var s := line + "\n" + rest;
    NewlineAt(s, |line|);
    assert s[..|line|] == line && s[|line| + 1..] == rest;
  }

  lemma {:induction false} NewlineAt(s: string, k: nat)
    requires k < |s| && s[k] == '\n' && '\n' !in s[..k]
    ensures FirstNewline(s) == k
  {
    if k > 0 {
      assert s[0] == s[..k][0] && s[1..][..k - 1] == s[..k][1..];
      NewlineAt(s[1..], k - 1);
    }
  }

  function Encoded(codec: Codec, events: seq<Event>): (r: seq<string>)
    ensures |r| == |events| && forall i :: 0 <= i < |events| ==> r[i] == codec.encode(events[i])
  {
    seq(|events|, i requires 0 <= i < |events| => codec.encode(events[i]))
  }

  lemma WrittenCons(codec: Codec, events: seq<Event>, rest: string)
    requires events != []
    ensures Written(codec, events) + rest == codec.encode(events[0]) + "\n" + (Written(codec, events[1..]) + rest)
  {
  }

  lemma EncodedCons(codec: Codec, events: seq<Event>, more: seq<string>)
    requires events != []
    ensures Encoded(codec, events) + more == [codec.encode(events[0])] + (Encoded(codec, events[1..]) + more)
  {
    assert Encoded(codec, events) == [codec.encode(events[0])] + Encoded(codec, events[1..]);
  }

  lemma {:induction false} LinesOfWritten(codec: Codec, events: seq<Event>, rest: string)
    requires Lossless(codec)
    ensures LinesOf(Written(codec, events) + rest) == Encoded(codec, events) + LinesOf(rest)
  {
    if events == [] {
      assert Written(codec, events) + rest == rest;
    } else {
      assert Encodes(codec, events[0]);
      LinesOfWritten(codec, events[1..], rest);
      WrittenCons(codec, events, rest);
      EncodedCons(codec, events, LinesOf(rest));
      LinesCons(codec.encode(events[0]), Written(codec, events[1..]) + rest);
    }
  }

  lemma {:induction false} DecodedOfEncoded(codec: Codec, events: seq<Event>)
    requires Lossless(codec) && AllGood(codec, Encoded(codec, events))
    ensures Decoded(codec, Encoded(codec, events)) == events
  {
    if events != [] {
      assert Encodes(codec, events[0]);
      assert Encoded(codec, events)[1..] == Encoded(codec, events[1..]);
      DecodedOfEncoded(codec, events[1..]);
      assert events == [events[0]] + events[1..];
    }
  }

  lemma GoodExactly(codec: Codec, events: seq<Event>)
    requires Lossless(codec)
    ensures forall i :: 0 <= i < |events| ==>
      (Good(codec, Encoded(codec, events)[i]) <==> |codec.encode(events[i])| <= MAX_LINE)
  {
    forall i | 0 <= i < |events|
      ensures Good(codec, Encoded(codec, events)[i]) <==> |codec.encode(events[i])| <= MAX_LINE {
      assert Encodes(codec, events[i]);
    }
  }

  /** Reading back what was appended succeeds exactly when every event ever appended, of any
      run, fits the scanner's line, and then gives the last `limit` events of the run asked for,
      in the order they were appended. */
  lemma RecentIsLastAppended(codec: Codec, events: seq<Event>, runID: string, limit: nat)
    requires Lossless(codec) && limit > 0
    ensures var r := ReadLines(codec, LinesOf(Written(codec, events)), runID, limit, []);
      && (r.Ok? <==> forall i :: 0 <= i < |events| ==> |codec.encode(events[i])| <= MAX_LINE)
      && (r.Ok? ==> r.events == LastOf(OfRun(events, runID), limit))
  {
    LinesOfWritten(codec, events, "");
    assert Written(codec, events) + "" == Written(codec, events);
    assert Encoded(codec, events) + [] == Encoded(codec, events);
    GoodExactly(codec, events);
    ReadIsExact(codec, Encoded(codec, events), runID, limit, []);
    if ReadLines(codec, Encoded(codec, events), runID, limit, []).Ok? {
      DecodedOfEncoded(codec, events);
      assert [] + OfRun(events, runID) == OfRun(events, runID);
    }
  }

  lemma OneBetween(codec: Codec, a: seq<string>, mid: string, b: seq<string>)
    requires AllGood(codec, a) && AllGood(codec, b)
    ensures AllGood(codec, a + ([mid] + b)) <==> Good(codec, mid)
  {
    var lines := a + ([mid] + b);
    assert lines[|a|] == mid;
    forall i | 0 <= i < |lines| && i != |a| ensures Good(codec, lines[i]) {
      if i < |a| {
        assert lines[i] == a[i];
      } else {
        assert lines[i] == b[i - |a| - 1];
      }
    }
  }

  lemma LinesAroundTorn(codec: Codec, before: seq<Event>, glued: string, after: seq<Event>)
    requires Lossless(codec) && '\n' !in glued
    ensures LinesOf(Written(codec, before) + (glued + "\n" + Written(codec, after)))
         == Encoded(codec, before) + ([glued] + Encoded(codec, after))
  {
    LinesOfWritten(codec, before, glued + "\n" + Written(codec, after));
    LinesCons(glued, Written(codec, after));
    LinesOfWritten(codec, after, "");
    assert Written(codec, after) + "" == Written(codec, after) && Encoded(codec, after) + [] == Encoded(codec, after);
  }

  /** After a torn write the next event is glued to what is left of the torn line.  Whatever is
      appended later, every read fails, for every run, unless the two happen to decode together. */
  lemma TornWriteSwallowsTheNext(
    codec: Codec, before: seq<Event>, torn: string, next: Event, after: seq<Event>, runID: string, limit: nat)
    requires Lossless(codec) && limit > 0 && '\n' !in torn
    requires forall i :: 0 <= i < |before| ==> |codec.encode(before[i])| <= MAX_LINE
    requires forall i :: 0 <= i < |after| ==> |codec.encode(after[i])| <= MAX_LINE
    ensures var content := Written(codec, before) + (torn + codec.encode(next) + "\n" + Written(codec, after));
      ReadLines(codec, LinesOf(content), runID, limit, []).Ok? <==> Good(codec, torn + codec.encode(next))
  {
    var glued := torn + codec.encode(next);
    assert Encodes(codec, next);
    LinesAroundTorn(codec, before, glued, after);
    GoodExactly(codec, before);
    GoodExactly(codec, after);
    OneBetween(codec, Encoded(codec, before), glued, Encoded(codec, after));
    ReadIsExact(codec, Encoded(codec, before) + ([glued] + Encoded(codec, after)), runID, limit, []);
  }
}
