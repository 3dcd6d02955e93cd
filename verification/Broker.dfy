/** The event broker: a bounded history that is replayed on subscribe, and one 64-slot channel
    per subscriber into which a publisher never waits to send.

    The broker is a class over mutable channels.  Its safety is proved on a transition system
    with any interleaving of publishes, subscribes (one send at a time, under the lock), receives
    and (two-step) cancels, against a log of everything ever published. */
module Broker {
  import opened Text

  const CHANNEL_SLOTS := 64
  const DEFAULT_HISTORY_LIMIT := 256

  datatype Event = Event(name: string, payload: string, sequence: int)

  /** The history kept after an append. */
  function Latest(history: seq<Event>, limit: nat): seq<Event> {
    if |history| > limit then history[|history| - limit..] else history
  }

  /** What a subscriber is sent on subscribing. */
  function Replay(history: seq<Event>, from: int): seq<Event> {
    if history == [] then []
    else (if history[0].sequence > from then [history[0]] else []) + Replay(history[1..], from)
  }

  lemma ReplayStep(history: seq<Event>, i: nat, from: int)
    requires i < |history|
    ensures Replay(history[i..], from)
         == (if history[i].sequence > from then [history[i]] else []) + Replay(history[i + 1..], from)
  {
    assert history[i..][1..] == history[i + 1..];
  }

  /** A send that gives up when the channel is full. */
  function Offer(buffer: seq<Event>, e: Event): seq<Event> {
    if |buffer| < CHANNEL_SLOTS then buffer + [e] else buffer
  }

  // ----- the broker -----

  class Channel {
    var buffer: seq<Event>
    var closed: bool

    constructor ()
      ensures buffer == [] && !closed
    {
      buffer, closed := [], false;
    }

    /** A send that never waits. */
    method TrySend(e: Event)
      modifies this`buffer
      ensures buffer == Offer(old(buffer), e)
    {
      if |buffer| < CHANNEL_SLOTS {
        buffer := buffer + [e];
      }
    }
  }

  class Broker {
    var nextSequence: int
    const historyLimit: nat
    var history: seq<Event>
    var subscribers: map<nat, Channel>
    var nextID: nat
    var lockHeld: bool        // by a subscribe that waits for room in a channel nobody reads

    ghost predicate Valid()
      reads this, subscribers.Values
    {
      && historyLimit > 0
      && (forall id :: id in subscribers ==> id < nextID && !subscribers[id].closed)
      && (forall i, j :: i in subscribers && j in subscribers && i != j ==> subscribers[i] != subscribers[j])
    }

    constructor (limit: int)
      ensures Valid() && historyLimit == (if limit <= 0 then 256 else limit)
      ensures nextSequence == 0 && history == [] && subscribers == map[] && nextID == 0 && !lockHeld
    {
      nextSequence := 0;
      historyLimit := if limit <= 0 then DEFAULT_HISTORY_LIMIT else limit;
      history := [];
      subscribers := map[];
      nextID := 0;
      lockHeld := false;
    }

    method Publish(name: string, payload: string) returns (emitted: Event)
      requires Valid() && !lockHeld
      modifies this`nextSequence, this`history, subscribers.Values
      ensures Valid()
      ensures nextSequence == old(nextSequence) + 1 && emitted == Event(name, payload, nextSequence)
      ensures history == Latest(old(history) + [emitted], historyLimit)
      ensures forall id :: id in subscribers ==>
        subscribers[id].buffer == Offer(old(subscribers[id].buffer), emitted)
    {
      nextSequence := nextSequence + 1;
      emitted := Event(name, payload, nextSequence);
      history := history + [emitted];
      if |history| > historyLimit {
        history := history[|history| - historyLimit..];
      }
      Notify(emitted);
    }

    /** Offers one event to every subscriber. */
    method Notify(e: Event)
      requires Valid()
      modifies subscribers.Values
      ensures Valid()
      ensures forall id :: id in subscribers ==> subscribers[id].buffer == Offer(old(subscribers[id].buffer), e)
    {
      var waiting := subscribers.Keys;
      while waiting != {}
        invariant waiting <= subscribers.Keys && Valid()
        invariant forall id :: id in waiting ==> subscribers[id].buffer == old(subscribers[id].buffer)
        invariant forall id :: id in subscribers && id !in waiting ==>
          subscribers[id].buffer == Offer(old(subscribers[id].buffer), e)
        decreases waiting
      {
        var id :| id in waiting;
        subscribers[id].TrySend(e);
        waiting := waiting - {id};
      }
    }

    /** `None` is a call that never returns: the replay does not fit in the new channel, and
        the lock stays held. */
    method Subscribe(from: int) returns (r: Option<(nat, Channel)>)
      requires Valid() && !lockHeld
      modifies this`subscribers, this`nextID, this`lockHeld
      ensures Valid() && lockHeld == r.None?
      ensures r == None <==> |Replay(history, from)| > 64
      ensures r == None ==> subscribers == old(subscribers) && nextID == old(nextID)
      ensures r.Some? ==>
        && r.value.0 == old(nextID) && nextID == old(nextID) + 1
        && fresh(r.value.1) && r.value.1.buffer == Replay(history, from) && !r.value.1.closed
        && subscribers == old(subscribers)[r.value.0 := r.value.1]
    {
      var channel := new Channel();
      var sent := Resend(from, channel);
      if !sent {
        lockHeld := true;
        return None;
      }
      assert forall id :: id in subscribers ==> subscribers[id] != channel;
      subscribers := subscribers[nextID := channel];
      r := Some((nextID, channel));
      nextID := nextID + 1;
    }

    /** Sends the replay into a channel nobody reads yet; `false` is a send that waits for ever. */
    method Resend(from: int, channel: Channel) returns (done: bool)
      requires channel.buffer == []
      modifies channel`buffer
      ensures done <==> |Replay(history, from)| <= CHANNEL_SLOTS
      ensures done ==> channel.buffer == Replay(history, from)
    {
      var i := 0;
      while i < |history|
        invariant 0 <= i <= |history|
        invariant channel.buffer + Replay(history[i..], from) == Replay(history, from)
        invariant |channel.buffer| <= CHANNEL_SLOTS
      {
        ReplayStep(history, i, from);
        if history[i].sequence > from {
          if |channel.buffer| == CHANNEL_SLOTS {
            return false;
          }
          channel.buffer := channel.buffer + [history[i]];
        }
        i := i + 1;
      }
      return true;
    }

    /** The cancel closure run alone: the first call closes the channel, later ones do nothing. */
    method Cancel(id: nat)
      requires Valid() && !lockHeld
      modifies this`subscribers, subscribers.Values
      ensures Valid() && subscribers == old(subscribers) - {id}
      ensures id in old(subscribers) ==> old(subscribers)[id].closed
      ensures forall j :: j in old(subscribers) ==> old(subscribers)[j].buffer == old(subscribers[j].buffer)
      ensures forall j :: j in old(subscribers) && j != id ==> !old(subscribers)[j].closed
    {
      if id in subscribers {
        var channel := subscribers[id];
        subscribers := subscribers - {id};
        channel.closed := true;
      }
    }
  }

  // ----- the transition system -----

  /** A subscription, from its subscribe call to the end of time.  `received` is what its
      reader has taken; `room` says, for each event published since, whether the subscription
      was registered and had a free slot at that moment. */
  datatype Subscription = Subscription(
    buffer: seq<Event>, closed: bool, registered: bool,
    from: int, start: nat, room: seq<bool>, received: seq<Event>)

  /** The broker's lock, and how far the subscribe that holds it has come: what its new channel
      holds and what it still has to send.  No reader knows that channel yet. */
  datatype Lock = Free | Replaying(from: int, sent: seq<Event>, pending: seq<Event>)

  datatype State = State(
    limit: nat,
    nextSequence: int,
    history: seq<Event>,
    subs: map<nat, Subscription>,
    nextID: nat,
    lock: Lock,
    closing: set<nat>,        // cancel calls between leaving the lock and closing the channel
    panicked: bool,           // a channel was closed twice, or sent to after closing
    log: seq<Event>)          // everything ever published

  datatype Action =
    | Publish(name: string, payload: string)
    | Subscribe(from: int)    // takes the lock
    | Resend                  // the subscribe that holds it sends one event, or registers and returns
    | Receive(id: nat)
    | CancelUnderLock(id: nat)
    | CancelClose(id: nat)

  function Start(limit: nat): State {
    State(limit, 0, [], map[], 0, Free, {}, false, [])
  }

  function HasRoom(u: Subscription): bool {
    u.registered && |u.buffer| < CHANNEL_SLOTS
  }

  function Notified(u: Subscription, e: Event): Subscription {
    u.(buffer := if u.registered then Offer(u.buffer, e) else u.buffer, room := u.room + [HasRoom(u)])
  }

  /** One step; an action that must wait, or has nothing to act on, changes nothing. */
  function Step(s: State, a: Action): State {
    match a
    case Publish(name, payload) =>
      if !s.lock.Free? then s
      else
        var e := Event(name, payload, s.nextSequence + 1);
        s.(nextSequence := s.nextSequence + 1,
           history := Latest(s.history + [e], s.limit),
           subs := map id | id in s.subs :: Notified(s.subs[id], e),
           panicked := s.panicked || exists id :: id in s.subs && s.subs[id].registered && s.subs[id].closed,
           log := s.log + [e])
    case Subscribe(from) =>
      if !s.lock.Free? then s else s.(lock := Replaying(from, [], Replay(s.history, from)))
    case Resend =>
      if s.lock.Free? then s
      else if s.lock.pending != [] then
        if |s.lock.sent| < CHANNEL_SLOTS then s.(lock := SendOne(s.lock)) else s
      else
        var u := Subscription(s.lock.sent, false, true, s.lock.from, |s.log|, [], []);
        s.(subs := s.subs[s.nextID := u], nextID := s.nextID + 1, lock := Free)
    case Receive(id) =>
      if id !in s.subs || s.subs[id].buffer == [] then s
      else
        var u := s.subs[id];
        s.(subs := s.subs[id := u.(buffer := u.buffer[1..], received := u.received + [u.buffer[0]])])
    case CancelUnderLock(id) =>
      if !s.lock.Free? || id !in s.subs || !s.subs[id].registered then s
      else s.(subs := s.subs[id := s.subs[id].(registered := false)], closing := s.closing + {id})
    case CancelClose(id) =>
      if id !in s.closing || id !in s.subs then s
      else
        s.(subs := s.subs[id := s.subs[id].(closed := true)],
           closing := s.closing - {id},
           panicked := s.panicked || s.subs[id].closed)
  }

  function SendOne(l: Lock): Lock
    requires l.Replaying? && l.pending != []
  {
    Replaying(l.from, l.sent + [l.pending[0]], l.pending[1..])
  }

  function Run(s: State, actions: seq<Action>): State {
    if actions == [] then s else Step(Run(s, actions[..|actions| - 1]), actions[|actions| - 1])
  }

  // ----- what the steps do -----

  /** What a publish leaves of one subscription: the event is behind what waits in the channel if the
      subscription is registered and one of the 64 slots is free, and is lost to it otherwise. */
  predicate Notices(u: Subscription, e: Event, v: Subscription) {
    && (u.registered && |u.buffer| < 64 ==> v == u.(buffer := u.buffer + [e], room := u.room + [true]))
    && (!(u.registered && |u.buffer| < 64) ==> v == u.(room := u.room + [false]))
  }

  /** A publish that finds the lock free hands out the next number, writes the event down, and offers
      it to every subscription. */
  lemma PublishReads(s: State, name: string, payload: string)
    ensures !s.lock.Free? ==> Step(s, Publish(name, payload)) == s
    ensures s.lock.Free? ==>
      var t := Step(s, Publish(name, payload)); var e := Event(name, payload, s.nextSequence + 1);
      && t.log == s.log + [e] && t.nextSequence == s.nextSequence + 1
      && t.history == (s.history + [e])[if |s.history| + 1 > s.limit then |s.history| + 1 - s.limit else 0..]
      && t.panicked == (s.panicked || exists id :: id in s.subs && s.subs[id].registered && s.subs[id].closed)
      && t.subs.Keys == s.subs.Keys && forall id :: id in s.subs ==> Notices(s.subs[id], e, t.subs[id])
  {
  }

  /** A subscribe takes the lock; with nothing left to send it registers what it has sent, under a
      new number, and gives the lock back. */
  lemma SubscribeReads(s: State, from: int)
    ensures !s.lock.Free? ==> Step(s, Subscribe(from)) == s
    ensures s.lock.Free? ==> Step(s, Subscribe(from)) == s.(lock := Replaying(from, [], Replay(s.history, from)))
    ensures s.lock.Replaying? && s.lock.pending == [] ==>
      var t := Step(s, Resend);
      && t.lock == Free && t.nextID == s.nextID + 1
      && t.subs == s.subs[s.nextID := Subscription(
           buffer := s.lock.sent, closed := false, registered := true, from := s.lock.from, start := |s.log|,
           room := [], received := [])]
  {
  }

  /** A reader takes the oldest event. */
  lemma ReceiveReads(s: State, id: nat)
    requires id in s.subs && s.subs[id].buffer != []
    ensures var u, v := s.subs[id], Step(s, Receive(id)).subs[id];
      [v.received[|u.received|]] + v.buffer == u.buffer && v.received[..|u.received|] == u.received
      && |v.received| == |u.received| + 1
  {
  }

  /** The two steps of a cancel that finds the lock free: nothing is sent to the subscription any
      more, and then its channel is closed.  What waits in the channel can still be read. */
  lemma CancelReads(s: State, id: nat)
    requires s.lock.Free? && id in s.subs && s.subs[id].registered
    ensures var t := Step(s, CancelUnderLock(id));
      && t.subs == s.subs[id := s.subs[id].(registered := false)] && t.closing == s.closing + {id}
      && Step(t, CancelClose(id)).subs == s.subs[id := s.subs[id].(registered := false, closed := true)]
      && Step(t, CancelClose(id)).closing == s.closing - {id}
  {
  }

  /** Closing a channel that is closed is a panic, and nothing else about a close is. */
  lemma CloseReads(s: State, id: nat)
    requires id in s.closing && id in s.subs
    ensures Step(s, CancelClose(id)).panicked <==> s.panicked || s.subs[id].closed
  {
  }

  /** A second cancel does nothing. */
  lemma CancelOnce(s: State, id: nat)
    requires id !in s.subs || !s.subs[id].registered
    ensures Step(s, CancelUnderLock(id)) == s
  {
  }

  // ----- the invariant -----

  /** The published events a subscription had room for. */
  function Taken(events: seq<Event>, room: seq<bool>): seq<Event>
    requires |events| == |room|
  {
    if events == [] then []
    else
      var last := |events| - 1;
      Taken(events[..last], room[..last]) + if room[last] then [events[last]] else []
  }

  /** Everything a subscription was ever sent. */
  function Sent(u: Subscription): seq<Event> {
    u.received + u.buffer
  }

  function Max(a: int, b: int): int {
    if a > b then a else b
  }

  /** The index in the log at which the replay of a subscription made after `start` events began. */
  function ReplayStart(start: nat, limit: nat, from: int): (lo: int)
    ensures 0 <= lo <= start
  {
    var kept := Max(0, start - limit);
    if from >= start then start else Max(kept, from)
  }

  ghost predicate Numbered(log: seq<Event>) {
    forall i :: 0 <= i < |log| ==> log[i].sequence == i + 1
  }

  ghost predicate Delivered(s: State, u: Subscription) {
    && u.start <= |s.log|
    && |u.room| == |s.log| - u.start
    && |u.buffer| <= CHANNEL_SLOTS
    && Sent(u) == s.log[ReplayStart(u.start, s.limit, u.from)..u.start] + Taken(s.log[u.start..], u.room)
  }

  ghost predicate Streams(s: State) {
    forall id :: id in s.subs ==> Delivered(s, s.subs[id])
  }

  /** Registered channels are open, and a channel about to be closed is closed by one call. */
  ghost predicate Channels(s: State) {
    && (forall id :: id in s.subs ==> id < s.nextID)
    && (forall id :: id in s.subs && s.subs[id].registered ==> !s.subs[id].closed && id !in s.closing)
    && (forall id :: id in s.closing ==> id in s.subs && !s.subs[id].closed)
  }

  /** What a subscribe has sent and has still to send is the replay it began with. */
  ghost predicate ReplayOnTheWay(s: State) {
    s.lock.Replaying? ==>
      s.lock.sent + s.lock.pending == Replay(s.history, s.lock.from) && |s.lock.sent| <= CHANNEL_SLOTS
  }

  ghost predicate Inv(s: State) {
    && s.limit > 0 && s.nextSequence == |s.log| && Numbered(s.log)
    && s.history == Latest(s.log, s.limit)
    && !s.panicked
    && ReplayOnTheWay(s)
    && Streams(s)
    && Channels(s)
  }

  lemma {:induction false} ReplayIsSuffix(history: seq<Event>, first: int, from: int)
    requires forall i :: 0 <= i < |history| ==> history[i].sequence == first + i
    ensures var skip := if from < first then 0
          else if from - first + 1 > |history| then |history| else from - first + 1;
      Replay(history, from) == history[skip..]
  {
    if history != [] {
      var tail := history[1..];
      forall i | 0 <= i < |tail| ensures tail[i].sequence == first + 1 + i {
        assert tail[i] == history[i + 1];
      }
      ReplayIsSuffix(tail, first + 1, from);
    }
  }

  /** On a numbered log the replay is one slice of it. */
  lemma ReplayOfLog(log: seq<Event>, limit: nat, from: int)
    requires Numbered(log)
    ensures Replay(Latest(log, limit), from) == log[ReplayStart(|log|, limit, from)..]
  {
    var kept := Max(0, |log| - limit);
    assert Latest(log, limit) == log[kept..];
    ReplayIsSuffix(log[kept..], kept + 1, from);
  }

  lemma TakenSnoc(events: seq<Event>, room: seq<bool>, e: Event, had: bool)
    requires |events| == |room|
    ensures Taken(events + [e], room + [had]) == Taken(events, room) + if had then [e] else []
  {
    assert (events + [e])[..|events|] == events && (room + [had])[..|room|] == room;
  }

  lemma NotifiedSent(u: Subscription, e: Event)
    ensures Sent(Notified(u, e)) == Sent(u) + if HasRoom(u) then [e] else []
  {
  }

  lemma SlicesOneMore(log: seq<Event>, e: Event, lo: nat, start: nat)
    requires lo <= start <= |log|
    ensures (log + [e])[lo..start] == log[lo..start] && (log + [e])[start..] == log[start..] + [e]
  {
  }

  lemma PublishKeepsDelivered(s: State, u: Subscription, e: Event)
    requires Delivered(s, u)
    ensures Delivered(s.(log := s.log + [e]), Notified(u, e))
  {
    SlicesOneMore(s.log, e, ReplayStart(u.start, s.limit, u.from), u.start);
    TakenSnoc(s.log[u.start..], u.room, e, HasRoom(u));
    NotifiedSent(u, e);
  }

  lemma PublishKeepsInv(s: State, a: Action)
    requires Inv(s) && a.Publish?
    ensures Inv(Step(s, a))
  {
    if s.lock.Free? {
      var t := Step(s, a);
      var e := t.log[|s.log|];
      assert s.history + [e] == Latest(s.log, s.limit) + [e];
      forall id | id in t.subs ensures Delivered(t, t.subs[id]) {
        PublishKeepsDelivered(s, s.subs[id], e);
        assert Delivered(s.(log := s.log + [e]), t.subs[id]);
      }
    }
  }

  lemma FreshIsDelivered(s: State, from: int)
    requires Inv(s) && |Replay(s.history, from)| <= CHANNEL_SLOTS
    ensures Delivered(s, Subscription(Replay(s.history, from), false, true, from, |s.log|, [], []))
  {
    ReplayOfLog(s.log, s.limit, from);
    var n := |s.log|;
    assert s.log[n..] == [] && s.log[ReplayStart(n, s.limit, from)..n] == s.log[ReplayStart(n, s.limit, from)..];
  }

  lemma DeliveredByLog(s: State, t: State, u: Subscription)
    requires Delivered(s, u) && t.log == s.log && t.limit == s.limit
    ensures Delivered(t, u)
  {
  }

  lemma SubscribeKeepsInv(s: State, a: Action)
    requires Inv(s) && a.Subscribe?
    ensures Inv(Step(s, a))
  {
    var t := Step(s, a);
    assert [] + Replay(s.history, a.from) == Replay(s.history, a.from);
    forall id | id in t.subs ensures Delivered(t, t.subs[id]) {
      DeliveredByLog(s, t, t.subs[id]);
    }
  }

  lemma SendingKeepsReplay(s: State)
    requires ReplayOnTheWay(s)
    ensures ReplayOnTheWay(Step(s, Resend))
  {
    if s.lock.Replaying? && s.lock.pending != [] {
      assert s.lock.sent + [s.lock.pending[0]] + s.lock.pending[1..] == s.lock.sent + s.lock.pending;
    }
  }

  lemma ResendKeepsStreams(s: State)
    requires Inv(s)
    ensures Streams(Step(s, Resend))
  {
    var t := Step(s, Resend);
    if s.lock.Replaying? && s.lock.pending == [] {
      assert s.lock.sent + s.lock.pending == s.lock.sent;
      FreshIsDelivered(s, s.lock.from);
    }
    forall id | id in t.subs ensures Delivered(t, t.subs[id]) {
      assert Delivered(s, t.subs[id]);
      DeliveredByLog(s, t, t.subs[id]);
    }
  }

  lemma ResendKeepsChannels(s: State)
    requires Channels(s)
    ensures Channels(Step(s, Resend))
  {
  }

  lemma ResendKeepsRest(s: State)
    ensures var t := Step(s, Resend);
      t.limit == s.limit && t.nextSequence == s.nextSequence && t.log == s.log && t.history == s.history
      && t.panicked == s.panicked
  {
  }

  lemma ResendKeepsInv(s: State)
    requires Inv(s)
    ensures Inv(Step(s, Resend))
  {
    SendingKeepsReplay(s);
    ResendKeepsStreams(s);
    ResendKeepsChannels(s);
    ResendKeepsRest(s);
  }

  /** A receive moves one event from the buffer to the reader; a cancel touches neither. */
  lemma ReaderKeepsSent(s: State, a: Action, id: nat)
    requires (a.Receive? || a.CancelUnderLock? || a.CancelClose?) && id in s.subs
    ensures var t := Step(s, a); t.log == s.log && t.limit == s.limit && id in t.subs
    ensures var u, v := s.subs[id], Step(s, a).subs[id];
      Sent(v) == Sent(u) && |v.buffer| <= |u.buffer| && v.from == u.from && v.start == u.start && v.room == u.room
  {
  }

  lemma DeliveredBySent(s: State, t: State, u: Subscription, v: Subscription)
    requires Delivered(s, u) && t.log == s.log && t.limit == s.limit
    requires Sent(v) == Sent(u) && |v.buffer| <= |u.buffer|
      && v.from == u.from && v.start == u.start && v.room == u.room
    ensures Delivered(t, v)
  {
  }

  lemma ReaderKeepsDelivered(s: State, a: Action, id: nat)
    requires Streams(s) && (a.Receive? || a.CancelUnderLock? || a.CancelClose?) && id in s.subs
    ensures id in Step(s, a).subs && Delivered(Step(s, a), Step(s, a).subs[id])
  {
    ReaderKeepsSent(s, a, id);
    DeliveredBySent(s, Step(s, a), s.subs[id], Step(s, a).subs[id]);
  }

  lemma ReaderKeepsStreams(s: State, a: Action)
    requires Inv(s) && (a.Receive? || a.CancelUnderLock? || a.CancelClose?)
    ensures Streams(Step(s, a))
  {
    forall id | id in Step(s, a).subs ensures Delivered(Step(s, a), Step(s, a).subs[id]) {
      ReaderKeepsDelivered(s, a, id);
    }
  }

  lemma ReaderKeepsChannels(s: State, a: Action)
    requires Channels(s) && (a.Receive? || a.CancelUnderLock? || a.CancelClose?)
    ensures Channels(Step(s, a)) && Step(s, a).panicked == s.panicked && Step(s, a).lock == s.lock
  {
  }

  lemma StepKeepsInv(s: State, a: Action)
    requires Inv(s)
    ensures Inv(Step(s, a))
  {
    match a
    case Publish(_, _) => PublishKeepsInv(s, a);
    case Subscribe(_) => SubscribeKeepsInv(s, a);
    case Resend => ResendKeepsInv(s);
    case _ =>
      ReaderKeepsStreams(s, a);
      ReaderKeepsChannels(s, a);
  }

  lemma StepKeepsLimit(s: State, a: Action)
    ensures Step(s, a).limit == s.limit
  {
  }

  lemma StartsInv(limit: nat)
    requires limit > 0
    ensures Inv(Start(limit))
  {
  }

  lemma {:induction false} RunKeepsInv(limit: nat, actions: seq<Action>)
    requires limit > 0
    ensures Inv(Run(Start(limit), actions)) && Run(Start(limit), actions).limit == limit
  {
    if actions == [] {
      StartsInv(limit);
    } else {
      var before, a := actions[..|actions| - 1], actions[|actions| - 1];
      RunKeepsInv(limit, before);
      StepKeepsInv(Run(Start(limit), before), a);
      StepKeepsLimit(Run(Start(limit), before), a);
      assert Run(Start(limit), actions) == Step(Run(Start(limit), before), a);
    }
  }

  // ----- the theorems -----

  lemma LatestIsSlice(log: seq<Event>, limit: nat)
    ensures Latest(log, limit) == log[Max(0, |log| - limit)..]
  {
  }

  lemma InvMeans(s: State)
    requires Inv(s)
    ensures s.history == s.log[Max(0, |s.log| - s.limit)..] && s.nextSequence == |s.log| && !s.panicked
    ensures forall i :: 0 <= i < |s.log| ==> s.log[i].sequence == i + 1
  {
    LatestIsSlice(s.log, s.limit);
  }

  /** After any interleaving the history is exactly the last `limit` published events, numbered
      consecutively from 1, and no channel was ever closed twice or sent to after closing. */
  lemma HistoryRefinesTheLog(limit: nat, actions: seq<Action>)
    requires limit > 0
    ensures var s := Run(Start(limit), actions);
      && s.history == s.log[Max(0, |s.log| - limit)..]
      && s.nextSequence == |s.log|
      && (forall i :: 0 <= i < |s.log| ==> s.log[i].sequence == i + 1)
      && !s.panicked
  {
    RunKeepsInv(limit, actions);
    InvMeans(Run(Start(limit), actions));
  }

  /** The stream of every subscription: the retained events newer than `from`, then exactly the
      later events published while it was registered and had a free slot. */
  lemma StreamIsReplayThenTaken(limit: nat, actions: seq<Action>, id: nat)
    requires limit > 0 && id in Run(Start(limit), actions).subs
    ensures var s := Run(Start(limit), actions); var u := s.subs[id];
      && u.start <= |s.log| && |u.room| == |s.log| - u.start
      && Sent(u) == s.log[ReplayStart(u.start, limit, u.from)..u.start] + Taken(s.log[u.start..], u.room)
  {
    RunKeepsInv(limit, actions);
  }

  ghost predicate Increasing(events: seq<Event>) {
    forall i, j :: 0 <= i < j < |events| ==> events[i].sequence < events[j].sequence
  }

  lemma {:induction false} TakenIsIncreasing(events: seq<Event>, room: seq<bool>, first: int)
    requires |events| == |room|
    requires forall i :: 0 <= i < |events| ==> events[i].sequence == first + i
    ensures Increasing(Taken(events, room))
    ensures forall e :: e in Taken(events, room) ==> first <= e.sequence < first + |events|
  {
    if events != [] {
      TakenIsIncreasing(events[..|events| - 1], room[..|events| - 1], first);
    }
  }

  /** Every stream is strictly increasing; and when the subscriber did not claim to have seen
      the future, it never gets an event numbered at or below `from`. */
  lemma StreamIsIncreasing(limit: nat, actions: seq<Action>, id: nat)
    requires limit > 0 && id in Run(Start(limit), actions).subs
    ensures var u := Run(Start(limit), actions).subs[id];
      && Increasing(Sent(u))
      && (u.from <= u.start ==> forall e :: e in Sent(u) ==> e.sequence > u.from)
  {
    RunKeepsInv(limit, actions);
    var s := Run(Start(limit), actions);
    var u := s.subs[id];
    TakenIsIncreasing(s.log[u.start..], u.room, u.start + 1);
  }

  /** Live events are not filtered: a subscriber from beyond the current sequence is sent the
      next event although its number is at or below `from`. */
  lemma FutureSubscriberGetsOldNumbers(s: State, id: nat, name: string, payload: string)
    requires Inv(s) && s.lock.Free? && id in s.subs && HasRoom(s.subs[id]) && s.subs[id].from > |s.log|
    ensures var e := Event(name, payload, |s.log| + 1);
      e in Sent(Step(s, Publish(name, payload)).subs[id]) && e.sequence <= s.subs[id].from
  {
    var u := Step(s, Publish(name, payload)).subs[id];
    assert u.buffer[|u.buffer| - 1] == Event(name, payload, |s.log| + 1);
    assert u.buffer[|u.buffer| - 1] in u.buffer;
  }

  lemma {:induction false} TakenWithRoom(events: seq<Event>, room: seq<bool>)
    requires |events| == |room| && forall i :: 0 <= i < |room| ==> room[i]
    ensures Taken(events, room) == events
  {
    if events != [] {
      TakenWithRoom(events[..|events| - 1], room[..|events| - 1]);
    }
  }

  lemma SentWithRoom(s: State, u: Subscription)
    requires Delivered(s, u) && forall i :: 0 <= i < |u.room| ==> u.room[i]
    ensures Sent(u) == s.log[ReplayStart(u.start, s.limit, u.from)..]
    ensures |Sent(u)| == |s.log| - ReplayStart(u.start, s.limit, u.from)
  {
    TakenWithRoom(s.log[u.start..], u.room);
    var lo := ReplayStart(u.start, s.limit, u.from);
    assert s.log[lo..u.start] + s.log[u.start..] == s.log[lo..];
  }

  lemma ReplayStartsAtFrom(start: nat, limit: nat, from: int)
    requires 0 <= from <= start
    ensures ReplayStart(start, limit, from) == from <==> start - from <= limit || from == start
  {
  }

  lemma SameSlice(log: seq<Event>, a: nat, b: nat)
    requires a <= |log| && b <= |log|
    ensures log[a..] == log[b..] <==> a == b
  {
    assert |log[a..]| == |log| - a && |log[b..]| == |log| - b;
  }

  /** Resuming from the last number seen, with a reader that keeps up, loses nothing exactly
      when at most `limit` events were missed. */
  lemma ResumeIsLossless(limit: nat, actions: seq<Action>, id: nat)
    requires limit > 0 && id in Run(Start(limit), actions).subs
    requires var u := Run(Start(limit), actions).subs[id];
      0 <= u.from <= u.start && forall i :: 0 <= i < |u.room| ==> u.room[i]
    ensures var s := Run(Start(limit), actions); var u := s.subs[id];
      u.start <= |s.log| && (Sent(u) == s.log[u.from..] <==> u.start - u.from <= limit)
  {
    RunKeepsInv(limit, actions);
    var s := Run(Start(limit), actions);
    assert Delivered(s, s.subs[id]);
    var u := s.subs[id];
    SentWithRoom(s, u);
    ReplayStartsAtFrom(u.start, limit, u.from);
    SameSlice(s.log, ReplayStart(u.start, limit, u.from), u.from);
  }

  // ----- subscribes that never return -----

  /** How many sends (or the final registration) the lock's holder was given time for. */
  function Resends(actions: seq<Action>): nat {
    if actions == [] then 0
    else Resends(actions[..|actions| - 1]) + if actions[|actions| - 1].Resend? then 1 else 0
  }

  /** At some moment of the run the lock is free. */
  ghost predicate Returns(s: State, actions: seq<Action>) {
    exists k :: 0 <= k <= |actions| && Run(s, actions[..k]).lock.Free?
  }

  lemma ReturnsOneMore(s: State, before: seq<Action>, a: Action)
    ensures Returns(s, before + [a]) <==> Returns(s, before) || Run(s, before + [a]).lock.Free?
  {
    var all := before + [a];
    assert all[..|all|] == all && all[..|before|] == before;
    assert forall k :: 0 <= k <= |before| ==> all[..k] == before[..k];
  }

  /** The lock after `n` chances to send the replay `r`, as long as its holder has not returned. */
  function LockAfter(from: int, r: seq<Event>, n: nat): Lock {
    var m := if n > CHANNEL_SLOTS then CHANNEL_SLOTS else n;
    var k := if m > |r| then |r| else m;
    Replaying(from, r[..k], r[k..])
  }

  lemma LockStep(s: State, a: Action, from: int, r: seq<Event>, n: nat)
    requires s.lock == LockAfter(from, r, n) && (n > |r| ==> |r| > CHANNEL_SLOTS)
    ensures var t := Step(s, a);
      && (!a.Resend? ==> t.lock == s.lock)
      && (a.Resend? && (n < |r| || |r| > CHANNEL_SLOTS) ==> t.lock == LockAfter(from, r, n + 1))
      && (a.Resend? && n == |r| <= CHANNEL_SLOTS ==> t.lock == Free)
  {
    if a.Resend? && n < |r| && n < CHANNEL_SLOTS {
      assert r[..n] + [r[n..][0]] == r[..n + 1] && r[n..][1..] == r[n + 1..];
    }
  }

  /** Where a subscribe stands after any continuation. */
  lemma {:induction false} ReturnsExactly(s: State, from: int, r: seq<Event>, actions: seq<Action>)
    requires s.lock == Replaying(from, [], r)
    ensures Returns(s, actions) <==> |r| <= CHANNEL_SLOTS && Resends(actions) > |r|
    ensures !Returns(s, actions) ==> Run(s, actions).lock == LockAfter(from, r, Resends(actions))
  {
    if actions == [] {
      assert r[..0] == [] && r[0..] == r;
      assert actions[..0] == [];
    } else {
      var before, a := actions[..|actions| - 1], actions[|actions| - 1];
      assert actions == before + [a];
      ReturnsExactly(s, from, r, before);
      ReturnsOneMore(s, before, a);
      if !Returns(s, before) {
        LockStep(Run(s, before), a, from, r, Resends(before));
      }
    }
  }

  /** A subscribe returns, given time to send, exactly when at most 64 retained events are newer
      than `from`, whatever else goes on. */
  lemma SubscribeBlocks(limit: nat, earlier: seq<Action>, from: int, later: seq<Action>)
    requires limit > 0 && Run(Start(limit), earlier).lock.Free?
    ensures var s := Run(Start(limit), earlier); var newer := |s.log| - ReplayStart(|s.log|, limit, from);
      Returns(Step(s, Subscribe(from)), later) <==> newer <= 64 && Resends(later) > newer
  {
    var s := Run(Start(limit), earlier);
    RunKeepsInv(limit, earlier);
    ReplayOfLog(s.log, limit, from);
    ReturnsExactly(Step(s, Subscribe(from)), from, Replay(s.history, from), later);
  }

  /** The lock's holder waits for room in a channel that nobody reads. */
  predicate Wedged(s: State) {
    s.lock.Replaying? && s.lock.pending != [] && |s.lock.sent| >= CHANNEL_SLOTS
  }

  /** Nothing but received events differs. */
  ghost predicate OnlyRead(s: State, t: State) {
    && t.lock == s.lock && t.log == s.log && t.history == s.history && t.subs.Keys == s.subs.Keys
    && forall id :: id in s.subs ==>
         t.subs[id].registered == s.subs[id].registered && Sent(t.subs[id]) == Sent(s.subs[id])
  }

  lemma WedgedStep(s: State, a: Action)
    requires Wedged(s)
    ensures OnlyRead(s, Step(s, a))
  {
    if a.Receive? || a.CancelUnderLock? || a.CancelClose? {
      forall id | id in s.subs ensures Sent(Step(s, a).subs[id]) == Sent(s.subs[id]) {
        ReaderKeepsSent(s, a, id);
      }
    }
  }

  lemma OnlyReadTwice(s: State, t: State, u: State)
    requires OnlyRead(s, t) && OnlyRead(t, u)
    ensures OnlyRead(s, u)
  {
  }

  /** From then on nothing is published, and nobody subscribes or cancels: readers empty the
      channels they have, and that is all. */
  lemma {:induction false} WedgedForGood(s: State, actions: seq<Action>)
    requires Wedged(s)
    ensures OnlyRead(s, Run(s, actions))
  {
    if actions != [] {
      var before, a := actions[..|actions| - 1], actions[|actions| - 1];
      WedgedForGood(s, before);
      WedgedStep(Run(s, before), a);
      OnlyReadTwice(s, Run(s, before), Run(s, actions));
    }
  }

  /** Every subscribe with more than 64 events to send gets there. */
  lemma LongReplayWedges(s: State, from: int, later: seq<Action>)
    requires s.lock.Free? && |Replay(s.history, from)| > 64 && Resends(later) >= 64
    ensures Wedged(Run(Step(s, Subscribe(from)), later))
  {
    ReturnsExactly(Step(s, Subscribe(from)), from, Replay(s.history, from), later);
  }
}
