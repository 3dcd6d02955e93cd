/** The control-message table: recording, listing, picking the next queued message, and closing
    one as consumed or cancelled.  Rows are ordered by their stored text keys (created_at, id);
    each store method is one atomic step. */
module ControlQueue {
  import opened Text
  import opened TextOrder

  datatype Status = Queued | Consumed | Cancelled

  function StatusText(status: Status): string {
    match status
    case Queued => "queued"
    case Consumed => "consumed"
    case Cancelled => "cancelled"
  }

  /** A formatted time; the empty string in the table means "not set" and is never one. */
  type Stamp = s: string | s != "" witness "Z"

  predicate IsHex(c: char) {
    '0' <= c <= '9' || 'a' <= c <= 'f'
  }

  /** Sixteen random bytes, written out. */
  type HexText = s: string | |s| == 32 && forall i :: 0 <= i < |s| ==> IsHex(s[i])
    witness seq(32, _ => '0')

  datatype Message = Message(
    id: string,
    runID: string,
    targetBinding: string,
    source: string,
    reason: string,
    rawText: string,
    status: Status,
    createdAt: Stamp,
    consumedAt: string,
    cancelledAt: string)

  type Rows = map<string, Message>

  datatype Params = Params(runID: string, targetBinding: string, source: string, reason: string, rawText: string)

  datatype Outcome = Ok | RunRequired | SourceRequired | TextRequired | IdRequired | NotFound | InsertFailed

  // ----- the order of the rows -----

  predicate Before(a: Message, b: Message) {
    TextBefore(a.createdAt, b.createdAt) || (a.createdAt == b.createdAt && TextBefore(a.id, b.id))
  }

  lemma BeforeIsStrictOrder(a: Message, b: Message, c: Message)
    ensures !Before(a, a)
    ensures Before(a, b) && Before(b, c) ==> Before(a, c)
    ensures a.id != b.id ==> (Before(a, b) <==> !Before(b, a))
  {
    TextBeforeIsStrict(a.createdAt, b.createdAt);
    TextBeforeIsStrict(a.id, b.id);
    TextBeforeIsStrict(a.createdAt, a.createdAt);
    TextBeforeIsStrict(a.id, a.id);
    TextBeforeIsTransitive(a.createdAt, b.createdAt, c.createdAt);
    TextBeforeIsTransitive(a.id, b.id, c.id);
  }

  /** Rows are stored under their own ids, and an id has no white space around it. */
  ghost predicate Keyed(rows: Rows) {
    forall id :: id in rows ==> rows[id].id == id && id != "" && Trimmed(id)
  }

  predicate Selected(m: Message, runID: string, status: string) {
    (Blank(runID) || m.runID == TrimSpace(runID)) && (Blank(status) || StatusText(m.status) == status)
  }

  function Matching(rows: Rows, runID: string, status: string): set<string> {
    set id | id in rows && Selected(rows[id], runID, status)
  }

  /** The queued messages of one run. */
  function QueuedIds(rows: Rows, key: string): set<string> {
    set id | id in rows && rows[id].runID == key && rows[id].status == Queued
  }

  ghost predicate First(rows: Rows, ids: set<string>, id: string)
    requires ids <= rows.Keys
  {
    id in ids && forall other :: other in ids && other != id ==> Before(rows[id], rows[other])
  }

  ghost predicate Last(rows: Rows, ids: set<string>, id: string)
    requires ids <= rows.Keys
  {
    id in ids && forall other :: other in ids && other != id ==> Before(rows[other], rows[id])
  }

  // ----- closing a message -----

  datatype Closing = Consume | Cancel

  function Close(m: Message, how: Closing, at: Stamp): Message {
    match how
    case Consume => m.(status := Consumed, consumedAt := at, cancelledAt := "")
    case Cancel => m.(status := Cancelled, consumedAt := "", cancelledAt := at)
  }

  function CloseRow(rows: Rows, id: string, how: Closing, at: Stamp): Rows {
    if id in rows then rows[id := Close(rows[id], how, at)] else rows
  }

  function NewMessage(p: Params, hex: HexText, created: Stamp): Message {
    Message("control_" + hex, TrimSpace(p.runID), TrimSpace(p.targetBinding), TrimSpace(p.source), TrimSpace(p.reason),
            p.rawText, Queued, created, "", "")
  }

  /** The row a recording makes, column by column. */
  predicate AsRecorded(p: Params, hex: HexText, created: Stamp, m: Message) {
    && m.id == "control_" + hex
    && m.runID == TrimSpace(p.runID)
    && m.targetBinding == TrimSpace(p.targetBinding)
    && m.source == TrimSpace(p.source)
    && m.reason == TrimSpace(p.reason)
    && m.rawText == p.rawText
    && m.status == Queued && m.consumedAt == "" && m.cancelledAt == ""
    && m.createdAt == created
  }

  function RecordOutcome(runs: set<string>, rows: Rows, p: Params, hex: HexText): Outcome {
    if Blank(p.runID) then RunRequired
    else if Blank(p.source) then SourceRequired
    else if p.rawText == "" then TextRequired
    else if "control_" + hex in rows || TrimSpace(p.runID) !in runs then InsertFailed
    else Ok
  }

  lemma NewIdIsTrimmed(hex: HexText)
    ensures Trimmed("control_" + hex)
  {
    var id := "control_" + hex;
    assert id[0] == 'c' && id[|id| - 1] == hex[31];
  }

  // ----- the store -----

  class Store {
    var runs: set<string>
    var rows: Rows

    method RecordControlMessage(p: Params, created: Option<Stamp>, now: Stamp, hex: HexText)
      returns (message: Option<Message>, err: Outcome)
      modifies this`rows
      ensures err == RecordOutcome(runs, old(rows), p, hex)
      ensures rows == Apply(runs, old(rows), Record(p, hex, if created == None then now else created.value))
      ensures err == Ok <==> message.Some?
      ensures message.Some? ==> message.value.id !in old(rows) && message.value.id in rows
      ensures message.Some? ==> rows[message.value.id] == message.value
      ensures message.Some? ==>
        AsRecorded(p, hex, if created == None then now else created.value, message.value)
    {
      if TrimSpace(p.runID) == "" {
        return None, RunRequired;
      }
      if TrimSpace(p.source) == "" {
        return None, SourceRequired;
      }
      if p.rawText == "" {
        return None, TextRequired;
      }
      var id := "control_" + hex;
      var createdAt := now;
      if created.Some? {
        createdAt := created.value;
      }
      var m := Message(id, TrimSpace(p.runID), TrimSpace(p.targetBinding), TrimSpace(p.source), TrimSpace(p.reason),
                       p.rawText, Queued, createdAt, "", "");
      if id in rows || m.runID !in runs {
        return None, InsertFailed;
      }
      rows := rows[id := m];
      return Some(m), Ok;
    }

    /** The query behind the listing and the pick: the last selected row, by key. */
    method LastOf(ids: set<string>) returns (id: string)
      requires Keyed(rows) && ids != {} && ids <= rows.Keys
      ensures Last(rows, ids, id)
    {
      id :| id in ids;
      var rest := ids - {id};
      while rest != {}
        invariant rest <= ids && id in ids - rest
        invariant Last(rows, ids - rest, id)
      {
        var other :| other in rest;
        if Before(rows[id], rows[other]) {
          forall earlier | earlier in ids - rest ensures Before(rows[earlier], rows[other]) {
            BeforeIsStrictOrder(rows[earlier], rows[id], rows[other]);
          }
          id := other;
        } else {
          BeforeIsStrictOrder(rows[id], rows[other], rows[other]);
        }
        rest := rest - {other};
      }
      assert ids - rest == ids;
    }

    method ListControlMessages(runID: string, status: string, limit: int) returns (messages: seq<Message>)
      requires Keyed(rows)
      ensures Listing(rows, runID, status, limit, messages)
    {
      var cap := limit;
      if cap <= 0 {
        cap := 20;
      }
      messages := LatestOf(Matching(rows, runID, status), cap);
    }

    /** ORDER BY created_at DESC, id DESC LIMIT cap. */
    method LatestOf(ids: set<string>, cap: nat) returns (messages: seq<Message>)
      requires Keyed(rows) && ids <= rows.Keys
      ensures Latest(rows, ids, cap, messages)
    {
      var rest := ids;
      messages := [];
      while rest != {} && |messages| < cap
        invariant rest <= ids && |messages| + |rest| == |ids| && |messages| <= cap
        invariant PickedFrom(rows, ids, rest, messages)
      {
        var id := LastOf(rest);
        PickedOneMore(rows, ids, rest, messages, id);
        messages := messages + [rows[id]];
        rest := rest - {id};
      }
      PickedAll(rows, ids, rest, messages, cap);
    }

    method NextQueuedControlMessage(runID: string) returns (message: Option<Message>, err: Outcome)
      requires Keyed(rows)
      ensures err == if Blank(runID) then RunRequired else Ok
      ensures message.Some? ==> !Blank(runID) && message.value.id in rows && rows[message.value.id] == message.value
      ensures message.Some? ==> First(rows, QueuedIds(rows, TrimSpace(runID)), message.value.id)
      ensures message == None ==> Blank(runID) || QueuedIds(rows, TrimSpace(runID)) == {}
    {
      var key := TrimSpace(runID);
      if key == "" {
        return None, RunRequired;
      }
      var ids := QueuedIds(rows, key);
      if ids == {} {
        return None, Ok;
      }
      var id :| id in ids;
      var rest := ids - {id};
      while rest != {}
        invariant rest <= ids && id in ids - rest
        invariant First(rows, ids - rest, id)
      {
        var other :| other in rest;
        if Before(rows[other], rows[id]) {
          forall later | later in ids - rest ensures Before(rows[other], rows[later]) {
            BeforeIsStrictOrder(rows[other], rows[id], rows[later]);
          }
          id := other;
        } else {
          BeforeIsStrictOrder(rows[other], rows[id], rows[id]);
        }
        rest := rest - {other};
      }
      assert ids - rest == ids;
      return Some(rows[id]), Ok;
    }

    method ConsumeControlMessage(messageID: string, at: Option<Stamp>, now: Stamp) returns (err: Outcome)
      modifies this`rows
      ensures err == CloseOutcome(old(rows), messageID)
      ensures rows == Apply(runs, old(rows), Shut(messageID, Consume, if at == None then now else at.value))
    {
      err := UpdateControlMessageStatus(messageID, Consume, at, now);
    }

    method CancelControlMessage(messageID: string, at: Option<Stamp>, now: Stamp) returns (err: Outcome)
      modifies this`rows
      ensures err == CloseOutcome(old(rows), messageID)
      ensures rows == Apply(runs, old(rows), Shut(messageID, Cancel, if at == None then now else at.value))
    {
      err := UpdateControlMessageStatus(messageID, Cancel, at, now);
    }

    method UpdateControlMessageStatus(messageID: string, how: Closing, at: Option<Stamp>, now: Stamp)
      returns (err: Outcome)
      modifies this`rows
      ensures err == CloseOutcome(old(rows), messageID)
      ensures rows == Apply(runs, old(rows), Shut(messageID, how, if at == None then now else at.value))
    {
      var key := TrimSpace(messageID);
      if key == "" {
        return IdRequired;
      }
      var changedAt := now;
      if at.Some? {
        changedAt := at.value;
      }
      var consumedAt, cancelledAt := "", "";
      match how {
        case Consume => consumedAt := changedAt;
        case Cancel => cancelledAt := changedAt;
      }
      if key !in rows {
        return NotFound;
      }
      var status := if how == Consume then Consumed else Cancelled;
      rows := rows[key := rows[key].(status := status, consumedAt := consumedAt, cancelledAt := cancelledAt)];
      return Ok;
    }
  }

  function CloseOutcome(rows: Rows, messageID: string): Outcome {
    if Blank(messageID) then IdRequired else if TrimSpace(messageID) in rows then Ok else NotFound
  }

  // ----- listings -----

  /** Exactly the rows `ids`, latest key first. */
  ghost predicate Listed(rows: Rows, ids: set<string>, messages: seq<Message>)
    requires ids <= rows.Keys
  {
    && (forall i :: 0 <= i < |messages| ==> messages[i].id in ids && rows[messages[i].id] == messages[i])
    && (forall id :: id in ids ==> rows[id] in messages)
    && (forall i, j :: 0 <= i < j < |messages| ==> Before(messages[j], messages[i]))
  }

  lemma ListedGrows(rows: Rows, ids: set<string>, messages: seq<Message>, id: string)
    requires ids <= rows.Keys && Keyed(rows) && id in rows && id !in ids
    requires Listed(rows, ids, messages) && forall m :: m in messages ==> Before(rows[id], m)
    ensures Listed(rows, ids + {id}, messages + [rows[id]])
  {
    var grown := messages + [rows[id]];
    assert grown[|messages|] == rows[id];
    forall other | other in ids + {id} ensures rows[other] in grown {
      if other != id {
        assert rows[other] in messages;
      }
    }
  }

  ghost predicate AllBefore(rows: Rows, ids: set<string>, messages: seq<Message>)
    requires ids <= rows.Keys
  {
    forall id, m :: id in ids && m in messages ==> Before(rows[id], m)
  }

  /** The latest `cap` of the rows `ids`, latest first. */
  ghost predicate Latest(rows: Rows, ids: set<string>, cap: nat, messages: seq<Message>) {
    && ids <= rows.Keys
    && |messages| == (if |ids| < cap then |ids| else cap)
    && (forall i :: 0 <= i < |messages| ==> messages[i].id in ids && rows[messages[i].id] == messages[i])
    && (forall i, j :: 0 <= i < j < |messages| ==> Before(messages[j], messages[i]))
    && (forall id, m :: id in ids && rows[id] !in messages && m in messages ==> Before(rows[id], m))
  }

  /** What a listing is: the latest `limit` of the selected rows. */
  ghost predicate Listing(rows: Rows, runID: string, status: string, limit: int, messages: seq<Message>) {
    Latest(rows, Matching(rows, runID, status), if limit <= 0 then 20 else limit, messages)
  }

  /** Halfway through a listing: the messages are picked, latest first, and `rest` is left. */
  ghost predicate PickedFrom(rows: Rows, ids: set<string>, rest: set<string>, messages: seq<Message>)
    requires ids <= rows.Keys && rest <= ids
  {
    Listed(rows, ids - rest, messages) && AllBefore(rows, rest, messages)
  }

  lemma PickedOneMore(rows: Rows, ids: set<string>, rest: set<string>, messages: seq<Message>, id: string)
    requires Keyed(rows) && ids <= rows.Keys && rest <= ids && Last(rows, rest, id)
    requires PickedFrom(rows, ids, rest, messages)
    ensures PickedFrom(rows, ids, rest - {id}, messages + [rows[id]])
  {
    ListedGrows(rows, ids - rest, messages, id);
    assert ids - (rest - {id}) == ids - rest + {id};
  }

  lemma PickedAll(rows: Rows, ids: set<string>, rest: set<string>, messages: seq<Message>, cap: nat)
    requires ids <= rows.Keys && rest <= ids && PickedFrom(rows, ids, rest, messages)
    requires |messages| + |rest| == |ids| && |messages| <= cap && (rest == {} || |messages| >= cap)
    ensures Latest(rows, ids, cap, messages)
  {
    forall id, m | id in ids && rows[id] !in messages && m in messages ensures Before(rows[id], m) {
      assert id in rest;
    }
  }

  lemma {:induction false} SameDescent(a: seq<Message>, b: seq<Message>)
    requires forall i, j :: 0 <= i < j < |a| ==> Before(a[j], a[i])
    requires forall i, j :: 0 <= i < j < |b| ==> Before(b[j], b[i])
    requires forall m :: m in a <==> m in b
    ensures a == b
    decreases |a|
  {
    assert b == [] || b[0] in a;
    if a != [] {
      assert a[0] in b;
      if a[0] != b[0] {
        BeforeIsStrictOrder(a[0], b[0], a[0]);
        assert false;
      }
      HeadIsNotInTail(a);
      HeadIsNotInTail(b);
      forall m ensures m in a[1..] <==> m in b[1..] {
        assert m in a <==> m == a[0] || m in a[1..];
        assert m in b <==> m == b[0] || m in b[1..];
      }
      SameDescent(a[1..], b[1..]);
      assert a == [a[0]] + a[1..] && b == [b[0]] + b[1..];
    }
  }

  lemma HeadIsNotInTail(a: seq<Message>)
    requires a != [] && forall i, j :: 0 <= i < j < |a| ==> Before(a[j], a[i])
    ensures a[0] !in a[1..]
  {
    BeforeIsStrictOrder(a[0], a[0], a[0]);
    assert forall j :: 0 <= j < |a[1..]| ==> a[1..][j] == a[j + 1];
  }

  lemma LatestHolds(rows: Rows, ids: set<string>, cap: nat, a: seq<Message>, b: seq<Message>, m: Message)
    requires Keyed(rows) && Latest(rows, ids, cap, a) && Latest(rows, ids, cap, b) && m in a
    ensures m in b
  {
    if m !in b {
      assert m.id in ids && rows[m.id] == m;
      forall x | x in b ensures x in a {
        BeforeIsStrictOrder(m, x, m);
        assert Before(m, x);
        assert x.id in ids && rows[x.id] == x;
      }
      DistinctIds(rows, a);
      DistinctIds(rows, b);
      assert m.id in IdsOf(a) && m.id !in IdsOf(b);
      SubsetOfSameSize(IdsOf(b), IdsOf(a));
      assert false;
    }
  }

  /** A selection has one listing. */
  lemma ListingIsUnique(rows: Rows, runID: string, status: string, limit: int, a: seq<Message>, b: seq<Message>)
    requires Keyed(rows) && Listing(rows, runID, status, limit, a) && Listing(rows, runID, status, limit, b)
    ensures a == b
  {
    var ids, cap := Matching(rows, runID, status), if limit <= 0 then 20 else limit;
    forall m ensures m in a <==> m in b {
      if m in a {
        LatestHolds(rows, ids, cap, a, b, m);
      }
      if m in b {
        LatestHolds(rows, ids, cap, b, a, m);
      }
    }
    SameDescent(a, b);
  }

  /** The next queued message is the last one of a queued listing that is large enough. */
  lemma NextIsLastListed(rows: Rows, runID: string, limit: int, messages: seq<Message>, id: string)
    requires Keyed(rows) && !Blank(runID)
    requires Listing(rows, runID, "queued", limit, messages)
    requires |QueuedIds(rows, TrimSpace(runID))| <= if limit <= 0 then 20 else limit
    requires First(rows, QueuedIds(rows, TrimSpace(runID)), id)
    ensures messages != [] && messages[|messages| - 1] == rows[id]
  {
    QueuedIsMatching(rows, runID);
    var all := Matching(rows, runID, "queued");
    WholeListing(rows, all, messages);
    FirstIsAtTheEnd(rows, all, messages, id);
  }

  lemma FirstIsAtTheEnd(rows: Rows, ids: set<string>, messages: seq<Message>, id: string)
    requires Keyed(rows) && ids <= rows.Keys && First(rows, ids, id) && rows[id] in messages
    requires forall m :: m in messages ==> m.id in ids && rows[m.id] == m
    requires forall i, j :: 0 <= i < j < |messages| ==> Before(messages[j], messages[i])
    ensures messages[|messages| - 1] == rows[id]
  {
    var last := messages[|messages| - 1];
    assert last == rows[id] || Before(rows[id], last) by { assert last.id in ids; }
    var k :| 0 <= k < |messages| && messages[k] == rows[id];
    BeforeIsStrictOrder(last, rows[id], last);
  }

  lemma QueuedIsMatching(rows: Rows, runID: string)
    requires !Blank(runID)
    ensures Matching(rows, runID, "queued") == QueuedIds(rows, TrimSpace(runID))
  {
    QueuedFilter();
    forall id | id in rows ensures id in Matching(rows, runID, "queued") <==> id in QueuedIds(rows, TrimSpace(runID)) {
      assert StatusText(rows[id].status) == "queued" <==> rows[id].status == Queued;
    }
  }

  lemma QueuedFilter()
    ensures !Blank("queued")
    ensures StatusText(Consumed) != "queued" && StatusText(Cancelled) != "queued"
  {
    assert Trimmed("queued");
    assert StatusText(Consumed)[0] == 'c' && StatusText(Cancelled)[0] == 'c' && "queued"[0] == 'q';
  }

  function IdsOf(messages: seq<Message>): set<string> {
    set m | m in messages :: m.id
  }

  lemma {:induction false} DistinctIds(rows: Rows, messages: seq<Message>)
    requires forall m :: m in messages ==> m.id in rows && rows[m.id] == m
    requires forall i, j :: 0 <= i < j < |messages| ==> Before(messages[j], messages[i])
    ensures |IdsOf(messages)| == |messages|
  {
    if messages != [] {
      var before, last := messages[..|messages| - 1], messages[|messages| - 1];
      DistinctIds(rows, before);
      BeforeIsStrictOrder(last, last, last);
      assert messages == before + [last];
      assert last !in before;
      assert IdsOf(messages) == IdsOf(before) + {last.id};
      assert last.id !in IdsOf(before);
    }
  }

  /** A listing as long as the selection holds all of it. */
  lemma WholeListing(rows: Rows, all: set<string>, messages: seq<Message>)
    requires Keyed(rows) && all <= rows.Keys && |messages| == |all|
    requires forall m :: m in messages ==> m.id in all && rows[m.id] == m
    requires forall i, j :: 0 <= i < j < |messages| ==> Before(messages[j], messages[i])
    ensures forall id :: id in all ==> rows[id] in messages
  {
    DistinctIds(rows, messages);
    SubsetOfSameSize(IdsOf(messages), all);
  }

  lemma SubsetOfSameSize(a: set<string>, b: set<string>)
    requires a <= b && |a| == |b|
    ensures a == b
  {
    assert |b - a| == |b| - |a|;
    assert b == a + (b - a);
  }

  // ----- histories -----

  datatype Op =
    | Record(p: Params, hex: HexText, created: Stamp)
    | Shut(messageID: string, how: Closing, at: Stamp)

  function Apply(runs: set<string>, rows: Rows, op: Op): Rows {
    match op
    case Record(p, hex, created) =>
      if RecordOutcome(runs, rows, p, hex) == Ok then rows["control_" + hex := NewMessage(p, hex, created)] else rows
    case Shut(messageID, how, at) => if Blank(messageID) then rows else CloseRow(rows, TrimSpace(messageID), how, at)
  }

  function After(runs: set<string>, ops: seq<Op>): Rows {
    if ops == [] then map[] else Apply(runs, After(runs, ops[..|ops| - 1]), ops[|ops| - 1])
  }

  /** The message as it was recorded. */
  function Origin(runs: set<string>, ops: seq<Op>, id: string): Message
    requires id in After(runs, ops)
  {
    var before, last := ops[..|ops| - 1], ops[|ops| - 1];
    if id in After(runs, before) then Origin(runs, before, id) else NewMessage(last.p, last.hex, last.created)
  }

  datatype Ending = Open | Ended(how: Closing, at: Stamp)

  /** The last consume or cancel addressed to a message since it was recorded. */
  function LastEnding(runs: set<string>, ops: seq<Op>, id: string): Ending
    requires id in After(runs, ops)
  {
    var before, last := ops[..|ops| - 1], ops[|ops| - 1];
    if id !in After(runs, before) then Open
    else if last.Shut? && TrimSpace(last.messageID) == id then Ended(last.how, last.at)
    else LastEnding(runs, before, id)
  }

  lemma {:induction false} AfterIsKeyed(runs: set<string>, ops: seq<Op>)
    ensures Keyed(After(runs, ops))
  {
    if ops != [] {
      AfterIsKeyed(runs, ops[..|ops| - 1]);
      if ops[|ops| - 1].Record? {
        NewIdIsTrimmed(ops[|ops| - 1].hex);
      }
    }
  }

  /** An accepted recording is in the table, and an addressed close finds its row there. */
  lemma AfterOneMore(runs: set<string>, ops: seq<Op>, op: Op)
    ensures After(runs, ops + [op]) == Apply(runs, After(runs, ops), op)
    ensures op.Record? && RecordOutcome(runs, After(runs, ops), op.p, op.hex) == Ok ==>
      "control_" + op.hex in After(runs, ops + [op])
      && AsRecorded(op.p, op.hex, op.created, After(runs, ops + [op])["control_" + op.hex])
  {
    assert (ops + [op])[..|ops|] == ops;
  }

  /** What a recording needs, the first missing thing first. */
  lemma RecordingReads(runs: set<string>, rows: Rows, p: Params, hex: HexText)
    ensures var r := RecordOutcome(runs, rows, p, hex);
      var complete := !Blank(p.runID) && !Blank(p.source) && p.rawText != "";
      && (r == RunRequired <==> Blank(p.runID))
      && (r == SourceRequired <==> !Blank(p.runID) && Blank(p.source))
      && (r == TextRequired <==> !Blank(p.runID) && !Blank(p.source) && p.rawText == "")
      && (r == Ok <==> complete && TrimSpace(p.runID) in runs && "control_" + hex !in rows)
      && (r == InsertFailed <==> complete && (TrimSpace(p.runID) !in runs || "control_" + hex in rows))
  {
  }

  lemma ClosingReads(rows: Rows, messageID: string)
    ensures var r := CloseOutcome(rows, messageID);
      && (r == IdRequired <==> TrimSpace(messageID) == "")
      && (r == Ok <==> TrimSpace(messageID) != "" && TrimSpace(messageID) in rows)
      && r in {IdRequired, NotFound, Ok}
  {
  }

  /** A listing goes by the run, if one is named, and by the status, if one is named. */
  lemma SelectionReads(m: Message, runID: string, status: string)
    ensures Selected(m, runID, status)
      <==> && (TrimSpace(runID) == "" || m.runID == TrimSpace(runID))
           && (|| TrimSpace(status) == ""
               || match m.status
                  case Queued => status == "queued"
                  case Consumed => status == "consumed"
                  case Cancelled => status == "cancelled")
  {
  }

  /** The operation that recorded a message, and what it recorded. */
  lemma {:induction false} OriginReads(runs: set<string>, ops: seq<Op>, id: string) returns (k: nat)
    requires id in After(runs, ops)
    ensures k < |ops| && ops[k].Record? && id !in After(runs, ops[..k])
    ensures RecordOutcome(runs, After(runs, ops[..k]), ops[k].p, ops[k].hex) == Ok
    ensures AsRecorded(ops[k].p, ops[k].hex, ops[k].created, Origin(runs, ops, id)) && Origin(runs, ops, id).id == id
  {
    var before := ops[..|ops| - 1];
    if id in After(runs, before) {
      k := OriginReads(runs, before, id);
      assert before[..k] == ops[..k];
    } else {
      k := |ops| - 1;
    }
  }

  /** After any history, a row is its message as recorded, closed by the last consume or cancel
      addressed to it: what was recorded never changes, and a later close replaces an earlier
      one, even a consume a cancel. */
  lemma {:induction false} RowTellsItsStory(runs: set<string>, ops: seq<Op>, id: string)
    requires id in After(runs, ops)
    ensures var origin := Origin(runs, ops, id); var row := After(runs, ops)[id];
      && origin.status == Queued && origin.consumedAt == "" == origin.cancelledAt && origin.id == id
      && match LastEnding(runs, ops, id)
         case Open => row == origin
         case Ended(Consume, at) => row == origin.(status := Consumed, consumedAt := at)
         case Ended(Cancel, at) => row == origin.(status := Cancelled, cancelledAt := at)
  {
    var before := ops[..|ops| - 1];
    AfterIsKeyed(runs, before);
    if id in After(runs, before) {
      RowTellsItsStory(runs, before, id);
    }
  }

  /** The status says which of the two closing times is set: neither, the one, or the other. */
  lemma StatusTellsWhichTimeIsSet(runs: set<string>, ops: seq<Op>, id: string)
    requires id in After(runs, ops)
    ensures var m := After(runs, ops)[id];
      && (m.status == Queued <==> m.consumedAt == "" && m.cancelledAt == "")
      && (m.status == Consumed <==> m.consumedAt != "" && m.cancelledAt == "")
      && (m.status == Cancelled <==> m.consumedAt == "" && m.cancelledAt != "")
  {
    RowTellsItsStory(runs, ops, id);
  }

  // ----- draining -----

  lemma {:induction false} FirstExists(rows: Rows, ids: set<string>) returns (id: string)
    requires Keyed(rows) && ids != {} && ids <= rows.Keys
    ensures First(rows, ids, id)
    decreases |ids|
  {
    var any :| any in ids;
    id := any;
    var rest := ids - {any};
    if rest != {} {
      var least := FirstExists(rows, rest);
      if Before(rows[any], rows[least]) {
        forall other | other in rest ensures Before(rows[any], rows[other]) {
          BeforeIsStrictOrder(rows[any], rows[least], rows[other]);
        }
      } else {
        BeforeIsStrictOrder(rows[any], rows[least], rows[any]);
        id := least;
      }
    }
    assert ids == rest + {any};
  }

  lemma ExistsFirst(rows: Rows, ids: set<string>)
    requires Keyed(rows) && ids != {} && ids <= rows.Keys
    ensures exists id :: First(rows, ids, id)
  {
    var id := FirstExists(rows, ids);
  }

  ghost function NextOf(rows: Rows, key: string): (id: string)
    requires Keyed(rows) && QueuedIds(rows, key) != {}
    ensures First(rows, QueuedIds(rows, key), id)
  {
    ExistsFirst(rows, QueuedIds(rows, key));
    var id :| First(rows, QueuedIds(rows, key), id);
    id
  }

  lemma ConsumeUnqueues(rows: Rows, key: string, id: string, at: Stamp)
    requires Keyed(rows) && id in QueuedIds(rows, key)
    ensures QueuedIds(CloseRow(rows, id, Consume, at), key) == QueuedIds(rows, key) - {id}
    ensures |QueuedIds(CloseRow(rows, id, Consume, at), key)| < |QueuedIds(rows, key)|
    ensures Keyed(CloseRow(rows, id, Consume, at))
  {
  }

  /** Next, then consume, until nothing is queued: the ids visited and the rows left. */
  ghost function Drain(rows: Rows, key: string, clock: nat -> Stamp, i: nat): (seq<string>, Rows)
    requires Keyed(rows)
    decreases |QueuedIds(rows, key)|
  {
    if QueuedIds(rows, key) == {} then ([], rows)
    else
      var id := NextOf(rows, key);
      ConsumeUnqueues(rows, key, id, clock(i));
      var rest := Drain(CloseRow(rows, id, Consume, clock(i)), key, clock, i + 1);
      ([id] + rest.0, rest.1)
  }

  /** The ids `visited` are exactly `ids`, in strictly ascending key order. */
  ghost predicate Visits(rows: Rows, ids: set<string>, visited: seq<string>)
    requires ids <= rows.Keys
  {
    && |visited| == |ids|
    && (forall id :: id in visited <==> id in ids)
    && (forall i, j :: 0 <= i < j < |visited| ==>
         visited[i] in ids && visited[j] in ids && Before(rows[visited[i]], rows[visited[j]]))
  }

  /** Draining ends, visits each queued message of the run exactly once and in key order. */
  lemma {:induction false} DrainVisitsInOrder(rows: Rows, key: string, clock: nat -> Stamp, i: nat)
    requires Keyed(rows)
    ensures Visits(rows, QueuedIds(rows, key), Drain(rows, key, clock, i).0)
    decreases |QueuedIds(rows, key)|
  {
    var ids := QueuedIds(rows, key);
    if ids != {} {
      var id := NextOf(rows, key);
      var next := CloseRow(rows, id, Consume, clock(i));
      ConsumeUnqueues(rows, key, id, clock(i));
      DrainVisitsInOrder(next, key, clock, i + 1);
      var rest := Drain(next, key, clock, i + 1).0;
      assert forall other :: other in ids - {id} ==> next[other] == rows[other];
      VisitsPrepend(rows, next, ids, id, rest);
    }
  }

  lemma PrependInOrder(
    rows: Rows, next: Rows, ids: set<string>, id: string, rest: seq<string>, i: nat, j: nat)
    requires ids <= rows.Keys && ids <= next.Keys && First(rows, ids, id)
    requires forall other :: other in ids - {id} ==> next[other] == rows[other]
    requires Visits(next, ids - {id}, rest) && i < j <= |rest|
    ensures var visited := [id] + rest;
      visited[i] in ids && visited[j] in ids && Before(rows[visited[i]], rows[visited[j]])
  {
    assert rest[j - 1] in rest;
    if i > 0 {
      assert rest[i - 1] in rest;
    }
  }

  lemma VisitsPrepend(rows: Rows, next: Rows, ids: set<string>, id: string, rest: seq<string>)
    requires ids <= rows.Keys && ids <= next.Keys && First(rows, ids, id)
    requires forall other :: other in ids - {id} ==> next[other] == rows[other]
    requires Visits(next, ids - {id}, rest)
    ensures Visits(rows, ids, [id] + rest)
  {
    var visited := [id] + rest;
    forall i, j | 0 <= i < j < |visited|
      ensures visited[i] in ids && visited[j] in ids && Before(rows[visited[i]], rows[visited[j]])
    {
      PrependInOrder(rows, next, ids, id, rest, i, j);
    }
  }

  /** Of `rows`, the `visited` messages are consumed, one clock tick each, and no other is touched. */
  ghost predicate Consumes(rows: Rows, visited: seq<string>, final: Rows, clock: nat -> Stamp, i: nat) {
    && final.Keys == rows.Keys
    && (forall id :: id in rows && id !in visited ==> final[id] == rows[id])
    && (forall k :: 0 <= k < |visited| ==>
         visited[k] in rows && final[visited[k]] == Close(rows[visited[k]], Consume, clock(i + k)))
  }

  lemma ConsumesPrepend(rows: Rows, id: string, visited: seq<string>, final: Rows, clock: nat -> Stamp, i: nat)
    requires id in rows && id !in visited
    requires Consumes(CloseRow(rows, id, Consume, clock(i)), visited, final, clock, i + 1)
    ensures Consumes(rows, [id] + visited, final, clock, i)
  {
    var all := [id] + visited;
    forall k | 0 <= k < |all| ensures all[k] in rows && final[all[k]] == Close(rows[all[k]], Consume, clock(i + k)) {
      if k > 0 {
        assert all[k] == visited[k - 1] && visited[k - 1] in visited;
        assert i + k == i + 1 + (k - 1);
      }
    }
    forall other | other in rows && other !in all ensures final[other] == rows[other] {
      assert other != id by { assert all[0] == id; }
      assert other !in visited by {
        assert forall m :: m in visited ==> m in all;
      }
    }
  }

  /** Draining leaves every visited message consumed at its turn's time, and every other
      message, whatever its run or status, as it was. */
  lemma {:induction false} DrainConsumesOnlyQueued(rows: Rows, key: string, clock: nat -> Stamp, i: nat)
    requires Keyed(rows)
    ensures var (visited, final) := Drain(rows, key, clock, i);
      Consumes(rows, visited, final, clock, i) && QueuedIds(final, key) == {}
    decreases |QueuedIds(rows, key)|
  {
    if QueuedIds(rows, key) != {} {
      var id := NextOf(rows, key);
      var next := CloseRow(rows, id, Consume, clock(i));
      ConsumeUnqueues(rows, key, id, clock(i));
      DrainConsumesOnlyQueued(next, key, clock, i + 1);
      DrainVisitsInOrder(next, key, clock, i + 1);
      var (rest, final) := Drain(next, key, clock, i + 1);
      ConsumesPrepend(rows, id, rest, final, clock, i);
    }
  }
}
