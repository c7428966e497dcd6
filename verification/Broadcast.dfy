/** The ingester's live feed as an interleaved protocol. One producer writes the cache and only
    afterwards broadcasts the frame on a bounded channel; each subscriber subscribes, takes a
    snapshot, writes it out, then drains the channel, and takes a fresh snapshot whenever the
    channel has overwritten frames it had not read.
 */
module Broadcast {
  import opened Wrappers
  import opened Feeds

  const CAPACITY := 1024
  const MAX_SUBSCRIBERS := 32

  datatype Phase =
    | Connecting                        // accepted, not yet subscribed to the channel
    | Subscribed(greeting: seq<Frame>)  // holds a channel cursor, about to take a snapshot
    | Serving(pending: seq<Frame>)      // frames still to be written, oldest first
    | Closed                            // cursor dropped, connection still counted

  datatype Subscriber = Subscriber(phase: Phase, next: nat, received: seq<Frame>)

  /** `log` is every frame ever enqueued; the channel retains its last CAPACITY entries. */
  datatype State = State(
    latest: Latest, inFlight: seq<Frame>, log: seq<Frame>,
    subscribers: map<nat, Subscriber>, counter: nat, rejecting: bool)

  datatype Event =
    | CacheWrite(update: Update)
    | Send
    | Accept(id: nat)
    | Reject
    | Subscribe(id: nat)
    | TakeSnapshot(id: nat, frames: seq<Frame>)
    | WriteFrame(id: nat)
    | WriteHeartbeat(id: nat)
    | Receive(id: nat)
    | Lag(id: nat)
    | Close(id: nat)
    | Leave(id: nat)

  predicate HasCursor(p: Phase) {
    p.Subscribed? || p.Serving?
  }

  function Put(s: State, id: nat, sub: Subscriber): State {
    s.(subscribers := s.subscribers[id := sub])
  }

  /** What one connection's task does to its own state; anything not enabled leaves it alone. */
  ghost function Advance(latest: Latest, log: seq<Frame>, sub: Subscriber, e: Event): Subscriber {
    match e
    case Subscribe(_) =>
      if sub.phase == Connecting then sub.(phase := Subscribed([Hello]), next := |log|) else sub
    case TakeSnapshot(_, frames) =>
      if sub.phase.Subscribed? && IsSnapshot(latest, frames)
      then sub.(phase := Serving(sub.phase.greeting + frames)) else sub
    case WriteFrame(_) =>
      if sub.phase.Serving? && sub.phase.pending != []
      then sub.(phase := Serving(sub.phase.pending[1..]), received := sub.received + sub.phase.pending[..1]) else sub
    case WriteHeartbeat(_) =>
      if sub.phase == Serving([]) then sub.(received := sub.received + [Heartbeat]) else sub
    case Receive(_) =>
      if sub.phase == Serving([]) && |log| - CAPACITY <= sub.next < |log|
      then sub.(phase := Serving([log[sub.next]]), next := sub.next + 1) else sub
    case Lag(_) =>
      if sub.phase == Serving([]) && sub.next < |log| - CAPACITY
      then sub.(phase := Subscribed([]), next := |log| - CAPACITY) else sub
    case Close(_) =>
      if HasCursor(sub.phase) then sub.(phase := Closed) else sub
    case _ => sub
  }

  /** One step. An event that is not enabled changes nothing, so every sequence of events is an
      interleaving and every interleaving is a sequence of events. */
  ghost function Step(s: State, e: Event): State {
    match e
    case CacheWrite(u) =>
      if s.inFlight == [] && Accepts(s.latest, u)
      then s.(latest := Offer(s.latest, u), inFlight := [Shown(u.feed, Entry(u))]) else s
    case Send =>
      // A channel without receivers refuses the frame.
      if exists id :: id in s.subscribers && HasCursor(s.subscribers[id].phase)
      then s.(log := s.log + s.inFlight, inFlight := []) else s.(inFlight := [])
    case Accept(id) =>
      if s.rejecting || id in s.subscribers then s
      else if s.counter + 1 > MAX_SUBSCRIBERS then s.(counter := s.counter + 1, rejecting := true)
      else Put(s.(counter := s.counter + 1), id, Subscriber(Connecting, 0, []))
    case Reject =>
      if s.rejecting && s.counter > 0 then s.(counter := s.counter - 1, rejecting := false) else s
    case Leave(id) =>
      if id in s.subscribers && s.subscribers[id].phase == Closed && s.counter > 0
      then s.(subscribers := s.subscribers - {id}, counter := s.counter - 1) else s
    case _ =>
      if e.id in s.subscribers then Put(s, e.id, Advance(s.latest, s.log, s.subscribers[e.id], e)) else s
  }

  const Start := State(map[], [], [], map[], 0, false)

  ghost function Run(s: State, events: seq<Event>): State
    decreases |events|
  {
    if events == [] then s else Run(Step(s, events[0]), events[1..])
  }

  ghost function After(events: seq<Event>): State {
    Run(Start, events)
  }

  // ----- what a subscriber has been told

  /** The last price frame for feed f in a sequence of frames. */
  function Last(frames: seq<Frame>, f: nat): (r: Option<Frame>)
    ensures r.Some? ==> r.value in frames && r.value.Price? && r.value.feed == f
  {
    if frames == [] then None
    else
      var x := frames[|frames| - 1];
      if x.Price? && x.feed == f then Some(x) else Last(frames[..|frames| - 1], f)
  }

  function Current(latest: Latest, f: nat): Option<Frame> {
    if f in latest then Some(Shown(f, latest[f])) else None
  }

  function Over(newer: Option<Frame>, older: Option<Frame>): Option<Frame> {
    if newer.Some? then newer else older
  }

  lemma {:induction false} LastConcat(a: seq<Frame>, b: seq<Frame>, f: nat)
    ensures Last(a + b, f) == Over(Last(b, f), Last(a, f))
    decreases |b|
  {
    if b == [] {
      assert a + b == a;
    } else {
      assert (a + b)[..|a + b| - 1] == a + b[..|b| - 1];
      LastConcat(a, b[..|b| - 1], f);
    }
  }

  lemma {:induction false} LastOccurs(frames: seq<Frame>, x: Frame)
    requires x.Price? && x in frames
    ensures Last(frames, x.feed).Some?
  {
    var n := |frames| - 1;
    if frames[n] != x {
      assert x in frames[..n];
      LastOccurs(frames[..n], x);
    }
  }

  lemma LastOfSnapshot(latest: Latest, frames: seq<Frame>, f: nat)
    requires IsSnapshot(latest, frames)
    ensures Last(frames, f) == Current(latest, f)
  {
    if f in latest {
      LastOccurs(frames, Shown(f, latest[f]));
    }
  }

  // ----- the invariant

  /** What has been received and what is still coming, in order: with nothing missed, its last
      frame per feed is the cached price. */
  function Coming(sub: Subscriber, log: seq<Frame>, inFlight: seq<Frame>): seq<Frame>
    requires sub.phase.Serving? && sub.next <= |log|
  {
    sub.received + sub.phase.pending + log[sub.next..] + inFlight
  }

  function Outstanding(p: Phase): seq<Frame> {
    match p
    case Subscribed(greeting) => greeting
    case Serving(pending) => pending
    case _ => []
  }

  ghost predicate SubscriberInv(latest: Latest, log: seq<Frame>, inFlight: seq<Frame>, sub: Subscriber) {
    && (sub.phase == Connecting ==> sub.received == [])
    && (HasCursor(sub.phase) ==>
          && sub.next <= |log|
          && (sub.received + Outstanding(sub.phase) != [] && (sub.received + Outstanding(sub.phase))[0] == Hello)
          && (forall f :: Last(log[sub.next..] + inFlight, f).Some? ==> Last(log[sub.next..] + inFlight, f) == Current(latest, f))
          && (forall f :: f !in latest ==> Last(sub.received + Outstanding(sub.phase), f).None?))
    && (sub.phase.Serving? && |log| <= sub.next + CAPACITY ==>
          forall f :: Last(Coming(sub, log, inFlight), f) == Current(latest, f))
  }

  ghost predicate InFlightOk(latest: Latest, inFlight: seq<Frame>) {
    forall x :: x in inFlight ==> x.Price? && Current(latest, x.feed) == Some(x)
  }

  ghost predicate Inv(s: State) {
    && |s.inFlight| <= 1
    && InFlightOk(s.latest, s.inFlight)
    && s.counter == |s.subscribers| + (if s.rejecting then 1 else 0)
    && |s.subscribers| <= MAX_SUBSCRIBERS
    && forall id :: id in s.subscribers ==> SubscriberInv(s.latest, s.log, s.inFlight, s.subscribers[id])
  }

  lemma WriteKeeps(latest: Latest, log: seq<Frame>, sub: Subscriber, u: Update)
    requires SubscriberInv(latest, log, [], sub) && Accepts(latest, u)
    ensures SubscriberInv(Offer(latest, u), log, [Shown(u.feed, Entry(u))], sub)
  {
    if HasCursor(sub.phase) {
      var x := Shown(u.feed, Entry(u));
      forall f
        ensures Last(log[sub.next..] + [x], f) == Over(Last([x], f), Last(log[sub.next..] + [], f))
      {
        LastConcat(log[sub.next..], [x], f);
        assert log[sub.next..] + [] == log[sub.next..];
      }
      if sub.phase.Serving? {
        forall f
          ensures Last(Coming(sub, log, [x]), f) == Over(Last([x], f), Last(Coming(sub, log, []), f))
        {
          LastConcat(Coming(sub, log, []), [x], f);
          assert Coming(sub, log, [x]) == Coming(sub, log, []) + [x];
        }
      }
    }
  }

  lemma SendKeeps(latest: Latest, log: seq<Frame>, inFlight: seq<Frame>, sub: Subscriber)
    requires SubscriberInv(latest, log, inFlight, sub)
    ensures SubscriberInv(latest, log + inFlight, [], sub)
  {
    if HasCursor(sub.phase) {
      assert (log + inFlight)[sub.next..] + [] == log[sub.next..] + inFlight;
      if sub.phase.Serving? {
        assert Coming(sub, log + inFlight, []) == Coming(sub, log, inFlight);
      }
    }
  }

  lemma SnapshotKeeps(latest: Latest, log: seq<Frame>, inFlight: seq<Frame>, sub: Subscriber, frames: seq<Frame>)
    requires SubscriberInv(latest, log, inFlight, sub) && sub.phase.Subscribed? && IsSnapshot(latest, frames)
    ensures SubscriberInv(latest, log, inFlight, sub.(phase := Serving(sub.phase.greeting + frames)))
  {
    var told := sub.received + sub.phase.greeting;
    var sub' := sub.(phase := Serving(sub.phase.greeting + frames));
    assert sub'.received + Outstanding(sub'.phase) == told + frames;
    assert Coming(sub', log, inFlight) == (told + frames) + (log[sub.next..] + inFlight);
    forall f
      ensures Last(told + frames, f) == Over(Current(latest, f), Last(told, f))
      ensures Last(Coming(sub', log, inFlight), f) == Current(latest, f)
    {
      LastConcat(told, frames, f);
      LastOfSnapshot(latest, frames, f);
      LastConcat(told + frames, log[sub.next..] + inFlight, f);
    }
  }

  lemma WriteFrameKeeps(latest: Latest, log: seq<Frame>, inFlight: seq<Frame>, sub: Subscriber)
    requires SubscriberInv(latest, log, inFlight, sub) && sub.phase.Serving? && sub.phase.pending != []
    ensures SubscriberInv(latest, log, inFlight,
                          sub.(phase := Serving(sub.phase.pending[1..]), received := sub.received + sub.phase.pending[..1]))
  {
    var sub' := sub.(phase := Serving(sub.phase.pending[1..]), received := sub.received + sub.phase.pending[..1]);
    assert sub'.received + Outstanding(sub'.phase) == sub.received + Outstanding(sub.phase);
    assert Coming(sub', log, inFlight) == Coming(sub, log, inFlight);
  }

  lemma HeartbeatKeeps(latest: Latest, log: seq<Frame>, inFlight: seq<Frame>, sub: Subscriber)
    requires SubscriberInv(latest, log, inFlight, sub) && sub.phase == Serving([])
    ensures SubscriberInv(latest, log, inFlight, sub.(received := sub.received + [Heartbeat]))
  {
    var sub' := sub.(received := sub.received + [Heartbeat]);
    var rest := log[sub.next..] + inFlight;
    assert sub'.received + [] == sub.received + [Heartbeat] && sub.received + [] == sub.received;
    assert Coming(sub', log, inFlight) == (sub.received + [Heartbeat]) + rest;
    assert Coming(sub, log, inFlight) == sub.received + rest;
    forall f
      ensures Last(sub'.received, f) == Last(sub.received, f)
      ensures Last(Coming(sub', log, inFlight), f) == Last(Coming(sub, log, inFlight), f)
    {
      LastConcat(sub.received, [Heartbeat], f);
      LastConcat(sub.received + [Heartbeat], rest, f);
      LastConcat(sub.received, rest, f);
    }
  }

  /** Moving the cursor forward keeps the unread tail consistent with the cache. */
  lemma TailKeeps(latest: Latest, log: seq<Frame>, inFlight: seq<Frame>, from: nat, to: nat, f: nat)
    requires from <= to <= |log|
    requires Last(log[from..] + inFlight, f).Some? ==> Last(log[from..] + inFlight, f) == Current(latest, f)
    ensures Last(log[to..] + inFlight, f).Some? ==> Last(log[to..] + inFlight, f) == Current(latest, f)
  {
    assert log[from..] + inFlight == log[from..to] + (log[to..] + inFlight);
    LastConcat(log[from..to], log[to..] + inFlight, f);
  }

  lemma ReceiveKeeps(latest: Latest, log: seq<Frame>, inFlight: seq<Frame>, sub: Subscriber)
    requires SubscriberInv(latest, log, inFlight, sub) && sub.phase == Serving([])
    requires |log| - CAPACITY <= sub.next < |log|
    ensures SubscriberInv(latest, log, inFlight, sub.(phase := Serving([log[sub.next]]), next := sub.next + 1))
  {
    var x := log[sub.next];
    var sub' := sub.(phase := Serving([x]), next := sub.next + 1);
    assert Coming(sub', log, inFlight) == Coming(sub, log, inFlight);
    forall f
      ensures Last(log[sub'.next..] + inFlight, f).Some? ==> Last(log[sub'.next..] + inFlight, f) == Current(latest, f)
      ensures f !in latest ==> Last(sub.received + [x], f).None?
    {
      TailKeeps(latest, log, inFlight, sub.next, sub'.next, f);
      assert Coming(sub, log, inFlight) == (sub.received + [x]) + (log[sub'.next..] + inFlight);
      LastConcat(sub.received + [x], log[sub'.next..] + inFlight, f);
    }
  }

  lemma LagKeeps(latest: Latest, log: seq<Frame>, inFlight: seq<Frame>, sub: Subscriber)
    requires SubscriberInv(latest, log, inFlight, sub) && sub.phase == Serving([]) && sub.next < |log| - CAPACITY
    ensures SubscriberInv(latest, log, inFlight, sub.(phase := Subscribed([]), next := |log| - CAPACITY))
  {
    forall f
      ensures Last(log[|log| - CAPACITY..] + inFlight, f).Some?
              ==> Last(log[|log| - CAPACITY..] + inFlight, f) == Current(latest, f)
    {
      TailKeeps(latest, log, inFlight, sub.next, |log| - CAPACITY, f);
    }
  }

  lemma ProducerKeeps(s: State, e: Event)
    requires Inv(s) && (e.CacheWrite? || e.Send?)
    ensures Inv(Step(s, e))
  {
    var s' := Step(s, e);
    forall id | id in s.subscribers
      ensures SubscriberInv(s'.latest, s'.log, s'.inFlight, s.subscribers[id])
    {
      var sub := s.subscribers[id];
      match e
      case CacheWrite(u) =>
        if s' != s { WriteKeeps(s.latest, s.log, sub, u); }
      case Send =>
        if HasCursor(sub.phase) { SendKeeps(s.latest, s.log, s.inFlight, sub); }
    }
  }

  lemma SubscribeKeeps(latest: Latest, log: seq<Frame>, inFlight: seq<Frame>, sub: Subscriber)
    requires SubscriberInv(latest, log, inFlight, sub) && sub.phase == Connecting
    requires InFlightOk(latest, inFlight)
    ensures SubscriberInv(latest, log, inFlight, sub.(phase := Subscribed([Hello]), next := |log|))
  {
    assert log[|log|..] + inFlight == inFlight;
    assert [] + [Hello] == [Hello];
  }

  /** Every step of a connection keeps that subscriber's invariant. */
  lemma AdvanceKeeps(latest: Latest, log: seq<Frame>, inFlight: seq<Frame>, sub: Subscriber, e: Event)
    requires SubscriberInv(latest, log, inFlight, sub) && InFlightOk(latest, inFlight)
    ensures SubscriberInv(latest, log, inFlight, Advance(latest, log, sub, e))
  {
    if Advance(latest, log, sub, e) != sub {
      match e
      case Subscribe(_) => SubscribeKeeps(latest, log, inFlight, sub);
      case TakeSnapshot(_, frames) => SnapshotKeeps(latest, log, inFlight, sub, frames);
      case WriteFrame(_) => WriteFrameKeeps(latest, log, inFlight, sub);
      case WriteHeartbeat(_) => HeartbeatKeeps(latest, log, inFlight, sub);
      case Receive(_) => ReceiveKeeps(latest, log, inFlight, sub);
      case Lag(_) => LagKeeps(latest, log, inFlight, sub);
      case Close(_) =>
    }
  }

  lemma FreshSubscriber(latest: Latest, log: seq<Frame>, inFlight: seq<Frame>)
    ensures SubscriberInv(latest, log, inFlight, Subscriber(Connecting, 0, []))
  {
  }

  lemma AcceptKeeps(s: State, id: nat)
    requires Inv(s)
    ensures Inv(Step(s, Accept(id)))
  {
    hide SubscriberInv;
    var s' := Step(s, Accept(id));
    if id !in s.subscribers && id in s'.subscribers {
      assert s'.subscribers.Keys == s.subscribers.Keys + {id};
      FreshSubscriber(s.latest, s.log, s.inFlight);
    }
  }

  lemma LeaveKeeps(s: State, id: nat)
    requires Inv(s)
    ensures Inv(Step(s, Leave(id)))
  {
    hide SubscriberInv;
    var s' := Step(s, Leave(id));
    if s' != s {
      assert s'.subscribers.Keys == s.subscribers.Keys - {id};
    }
  }

  lemma StepKeeps(s: State, e: Event)
    requires Inv(s)
    ensures Inv(Step(s, e))
  {
    hide SubscriberInv, Advance;
    if e.CacheWrite? || e.Send? {
      ProducerKeeps(s, e);
    } else if e.Accept? {
      AcceptKeeps(s, e.id);
    } else if e.Leave? {
      LeaveKeeps(s, e.id);
    } else if e.Reject? {
    } else if e.id in s.subscribers {
      AdvanceKeeps(s.latest, s.log, s.inFlight, s.subscribers[e.id], e);
      assert Step(s, e).subscribers.Keys == s.subscribers.Keys;
    }
  }

  lemma {:induction false} RunKeeps(s: State, events: seq<Event>)
    requires Inv(s)
    ensures Inv(Run(s, events))
    decreases |events|
  {
    if events != [] {
      StepKeeps(s, events[0]);
      RunKeeps(Step(s, events[0]), events[1..]);
    }
  }

  // ----- main results

  /** No insert is under way and this subscriber has written all it took and read all there is. */
  ghost predicate Drained(s: State, id: nat) {
    && s.inFlight == []
    && id in s.subscribers
    && s.subscribers[id].phase == Serving([])
    && s.subscribers[id].next == |s.log|
  }

  lemma DrainedState(s: State, id: nat, f: nat)
    requires Inv(s) && Drained(s, id)
    ensures Last(s.subscribers[id].received, f) == Current(s.latest, f)
    ensures s.subscribers[id].received != [] && s.subscribers[id].received[0] == Hello
  {
    var sub := s.subscribers[id];
    assert sub.received + [] == sub.received;
    assert Coming(sub, s.log, s.inFlight) == sub.received;
  }

  /** After every interleaving, including channel overflow and repeated lag, a drained subscriber
      has been greeted first and the last frame it received for each feed is the cached one (and
      it received none for a feed that is not cached). */
  lemma DrainedIsCurrent(events: seq<Event>, id: nat, f: nat)
    requires Drained(After(events), id)
    ensures var s := After(events);
            && Last(s.subscribers[id].received, f) == Current(s.latest, f)
            && s.subscribers[id].received != [] && s.subscribers[id].received[0] == Hello
  {
    RunKeeps(Start, events);
    DrainedState(After(events), id, f);
  }

  /** The connection counter is exact and never lets more than MAX_SUBSCRIBERS connections in. */
  lemma SubscribersBounded(events: seq<Event>)
    ensures var s := After(events);
            && |s.subscribers| <= MAX_SUBSCRIBERS
            && s.counter == |s.subscribers| + (if s.rejecting then 1 else 0)
  {
    RunKeeps(Start, events);
  }

  /** A new connection is served exactly if fewer than 32 are; one that is not is turned away without
      a trace. */
  lemma ServedIff(events: seq<Event>, id: nat)
    requires var s := After(events); !s.rejecting && id !in s.subscribers
    ensures var s, s' := After(events), Step(After(events), Accept(id));
            && (id in s'.subscribers <==> |s.subscribers| < 32)
            && (id in s'.subscribers ==> s'.subscribers == s.subscribers[id := Subscriber(Connecting, 0, [])])
            && (id !in s'.subscribers ==> Step(s', Reject) == s)
  {
    RunKeeps(Start, events);
  }

  lemma Leaving(s: State, id: nat)
    requires s.counter > 0 && id in s.subscribers && HasCursor(s.subscribers[id].phase)
    ensures var s' := Step(Step(s, Close(id)), Leave(id));
            && s'.subscribers == s.subscribers - {id} && s'.counter == s.counter - 1
            && s'.latest == s.latest && s'.log == s.log && s'.inFlight == s.inFlight && s'.rejecting == s.rejecting
  {
    var s1 := Step(s, Close(id));
    assert s1.subscribers - {id} == s.subscribers - {id};
  }

  /** A connection that ends gives its place back. */
  lemma LeavesPlace(events: seq<Event>, id: nat)
    requires id in After(events).subscribers && HasCursor(After(events).subscribers[id].phase)
    ensures var s, s' := After(events), Step(Step(After(events), Close(id)), Leave(id));
            s'.subscribers == s.subscribers - {id} && s'.counter == s.counter - 1 && s'.latest == s.latest && s'.log == s.log
  {
    hide Step, SubscriberInv;
    RunKeeps(Start, events);
    assert After(events).subscribers.Keys != {};
    Leaving(After(events), id);
  }

  /** Any step moves a subscriber's cursor not at all, or over one frame that it then has to write and
      that is among the last 1024, or, if the next frame is no longer among those, to the oldest
      that is, with a new snapshot to follow. */
  lemma CursorMoves(s: State, e: Event, id: nat)
    requires Inv(s) && id in s.subscribers && id in Step(s, e).subscribers && HasCursor(s.subscribers[id].phase)
    ensures var sub, sub' := s.subscribers[id], Step(s, e).subscribers[id];
            || sub'.next == sub.next
            || (sub'.next == sub.next + 1 && |s.log| - 1024 <= sub.next < |s.log| && sub'.phase == Serving([s.log[sub.next]]))
            || (sub.next < |s.log| - 1024 && sub'.next == |s.log| - 1024 && sub'.phase == Subscribed([]))
  {
    hide SubscriberInv;
  }

  lemma LaterStep(s: State, e: Event, id: nat, tail: nat)
    requires Inv(s) && e != Accept(id)
    requires id in s.subscribers ==> s.subscribers[id].phase != Connecting
    requires id in s.subscribers && HasCursor(s.subscribers[id].phase) ==> tail <= s.subscribers[id].next
    ensures var s' := Step(s, e);
            && (id in s'.subscribers ==> s'.subscribers[id].phase != Connecting)
            && (id in s'.subscribers && HasCursor(s'.subscribers[id].phase) ==> tail <= s'.subscribers[id].next)
  {
    hide SubscriberInv;
  }

  lemma {:induction false} ReadsOnlyLater(s: State, events: seq<Event>, id: nat, tail: nat)
    requires Inv(s) && forall i :: 0 <= i < |events| ==> events[i] != Accept(id)
    requires id in s.subscribers ==> s.subscribers[id].phase != Connecting
    requires id in s.subscribers && HasCursor(s.subscribers[id].phase) ==> tail <= s.subscribers[id].next
    ensures var s' := Run(s, events);
            id in s'.subscribers && HasCursor(s'.subscribers[id].phase) ==> tail <= s'.subscribers[id].next
    decreases |events|
  {
    if events != [] {
      hide Inv, SubscriberInv;
      StepKeeps(s, events[0]);
      LaterStep(s, events[0], id, tail);
      ReadsOnlyLater(Step(s, events[0]), events[1..], id, tail);
    }
  }

  /** From its subscription on, a connection reads no frame that was enqueued before. */
  lemma SubscribesAtTail(events: seq<Event>, id: nat, more: seq<Event>)
    requires id in After(events).subscribers && After(events).subscribers[id].phase == Connecting
    requires forall i :: 0 <= i < |more| ==> more[i] != Accept(id)
    ensures var s' := Run(Step(After(events), Subscribe(id)), more);
            id in s'.subscribers && HasCursor(s'.subscribers[id].phase) ==> |After(events).log| <= s'.subscribers[id].next
  {
    RunKeeps(Start, events);
    var s := After(events);
    hide Run, SubscriberInv;
    StepKeeps(s, Subscribe(id));
    ReadsOnlyLater(Step(s, Subscribe(id)), more, id, |s.log|);
  }

  // ----- progress: with the producer quiet, a subscriber's own steps lead to the drained state

  predicate OwnStep(e: Event, id: nat) {
    (e.TakeSnapshot? || e.WriteFrame? || e.Receive? || e.Lag?) && e.id == id
  }

  /** How many steps of its own a connection can still take while the producer is quiet. Reading
      a frame, or lagging and resending the whole cache, always uses up more than it adds. */
  function Work(s: State, sub: Subscriber): nat
    requires HasCursor(sub.phase) && sub.next <= |s.log|
  {
    (|s.log| - sub.next) * (|s.latest| + 2)
    + if sub.phase.Subscribed? then |sub.phase.greeting| + |s.latest| + 1 else |sub.phase.pending|
  }

  lemma FewerUnread(unread: nat, less: nat, k: nat)
    requires less < unread
    ensures less * k + k <= unread * k
  {
    assert less * k + k == (less + 1) * k;
    var extra := unread - less - 1;
    assert (less + 1) * k + extra * k == (less + 1 + extra) * k;
  }

  /** Every own step that does anything uses up work and leaves the cache and channel alone. */
  lemma OwnStepsUseWork(s: State, e: Event, id: nat)
    requires Inv(s) && id in s.subscribers && HasCursor(s.subscribers[id].phase)
    requires OwnStep(e, id) && Step(s, e) != s
    ensures var s' := Step(s, e);
            && id in s'.subscribers && HasCursor(s'.subscribers[id].phase)
            && s'.latest == s.latest && s'.log == s.log && s'.inFlight == s.inFlight
            && s'.subscribers[id].next <= |s.log|
            && s.subscribers[id].next <= |s.log|
            && Work(s', s'.subscribers[id]) < Work(s, s.subscribers[id])
  {
    var sub, sub' := s.subscribers[id], Step(s, e).subscribers[id];
    if e.TakeSnapshot? {
      assert sub' != sub;
      SnapshotSize(s.latest, e.frames);
    } else if sub'.next != sub.next {
      FewerUnread(|s.log| - sub.next, |s.log| - sub'.next, |s.latest| + 2);
    }
  }

  /** A connected subscriber that is not drained can always take another step of its own. */
  lemma NeverStuck(s: State, id: nat) returns (e: Event)
    requires Inv(s) && id in s.subscribers && HasCursor(s.subscribers[id].phase)
    requires s.inFlight == [] && !Drained(s, id)
    ensures OwnStep(e, id) && Step(s, e) != s
  {
    var sub := s.subscribers[id];
    if sub.phase.Subscribed? {
      var frames := SnapshotExists(s.latest);
      e := TakeSnapshot(id, frames);
      assert Step(s, e).subscribers[id].phase.Serving?;
    } else if sub.phase.pending != [] {
      e := WriteFrame(id);
      assert |Step(s, e).subscribers[id].phase.pending| < |sub.phase.pending|;
    } else {
      e := if sub.next < |s.log| - CAPACITY then Lag(id) else Receive(id);
      assert Step(s, e).subscribers[id].next != sub.next;
    }
  }

  lemma {:induction false} DrainsFrom(s: State, id: nat) returns (more: seq<Event>)
    requires Inv(s) && s.inFlight == [] && id in s.subscribers && HasCursor(s.subscribers[id].phase)
    ensures forall i :: 0 <= i < |more| ==> OwnStep(more[i], id)
    ensures Drained(Run(s, more), id) && Run(s, more).latest == s.latest
    decreases Work(s, s.subscribers[id])
  {
    if Drained(s, id) {
      more := [];
    } else {
      var e := NeverStuck(s, id);
      StepKeeps(s, e);
      OwnStepsUseWork(s, e, id);
      var rest := DrainsFrom(Step(s, e), id);
      more := [e] + rest;
      assert more[1..] == rest;
    }
  }

  /** From every reachable state in which no frame is under way, own steps alone bring a connected
      subscriber to the drained state, and what it then holds for every feed is the price that was
      already cached. */
  lemma Drains(events: seq<Event>, id: nat) returns (more: seq<Event>)
    requires var s := After(events); s.inFlight == [] && id in s.subscribers && HasCursor(s.subscribers[id].phase)
    ensures forall i :: 0 <= i < |more| ==> OwnStep(more[i], id)
    ensures Drained(Run(After(events), more), id)
    ensures forall f :: Last(Run(After(events), more).subscribers[id].received, f) == Current(After(events).latest, f)
  {
    var s := After(events);
    RunKeeps(Start, events);
    more := DrainsFrom(s, id);
    RunKeeps(s, more);
    forall f
      ensures Last(Run(s, more).subscribers[id].received, f) == Current(s.latest, f)
    {
      DrainedState(Run(s, more), id, f);
    }
  }
}
