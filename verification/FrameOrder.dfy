/** In which order a subscriber sees the prices of a feed. The frames of a snapshot are never older
    than what it was sent before; a frame read from the channel can be, and exactly when is said
    in terms of the snapshot that was sent last.
 */
module FrameOrder {
  import opened Wrappers
  import opened Feeds
  import opened Broadcast

  function Ms(p: CachedPrice): nat {
    p.sourceNs / NANOS_PER_MILLISECOND
  }

  lemma MsMonotone(p: CachedPrice, q: CachedPrice)
    requires p.sourceNs <= q.sourceNs
    ensures Ms(p) <= Ms(q)
  {
  }

  /** No later than the cached price of its feed. */
  predicate AtMost(x: Frame, latest: Latest) {
    x.Price? ==> x.feed in latest && x.timeMs <= Ms(latest[x.feed])
  }

  ghost predicate NotBefore(older: Latest, latest: Latest) {
    forall f :: f in older ==> f in latest && Ms(older[f]) <= Ms(latest[f])
  }

  /** The times of a feed do not decrease along the channel, and the cache is as late as any. */
  ghost predicate Ordered(latest: Latest, log: seq<Frame>) {
    && (forall i :: 0 <= i < |log| ==> log[i].Price? && AtMost(log[i], latest))
    && (forall i, j :: 0 <= i < j < |log| && log[i].Price? && log[j].Price? && log[i].feed == log[j].feed ==>
                         log[i].timeMs <= log[j].timeMs)
  }

  ghost predicate Told(latest: Latest, sub: Subscriber) {
    forall x :: x in sub.received + Outstanding(sub.phase) ==> AtMost(x, latest)
  }

  ghost predicate OrderInv(s: State) {
    && InFlightOk(s.latest, s.inFlight) && |s.inFlight| <= 1 && Ordered(s.latest, s.log)
    && forall id :: id in s.subscribers ==> Told(s.latest, s.subscribers[id])
  }

  // ----- every step keeps the order

  lemma OfferLater(latest: Latest, u: Update)
    requires Accepts(latest, u)
    ensures NotBefore(latest, Offer(latest, u))
  {
    if u.feed in latest { MsMonotone(latest[u.feed], Entry(u)); }
    hide Ms;
  }

  lemma OrderedLater(older: Latest, latest: Latest, log: seq<Frame>)
    requires Ordered(older, log) && NotBefore(older, latest)
    ensures Ordered(latest, log)
  {
  }

  lemma ToldLater(older: Latest, latest: Latest, sub: Subscriber)
    requires Told(older, sub) && NotBefore(older, latest)
    ensures Told(latest, sub)
  {
  }

  lemma OrderedSend(latest: Latest, log: seq<Frame>, inFlight: seq<Frame>)
    requires Ordered(latest, log) && InFlightOk(latest, inFlight) && |inFlight| <= 1
    ensures Ordered(latest, log + inFlight)
  {
    if inFlight != [] {
      assert inFlight[0] in inFlight && log + inFlight == log + [inFlight[0]];
    }
  }

  lemma ToldAdvance(latest: Latest, log: seq<Frame>, sub: Subscriber, e: Event)
    requires Told(latest, sub) && Ordered(latest, log)
    ensures Told(latest, Advance(latest, log, sub, e))
  {
    hide Ms;
    var sub' := Advance(latest, log, sub, e);
    forall x | x in sub'.received + Outstanding(sub'.phase)
      ensures AtMost(x, latest)
    {
      if x !in sub.received + Outstanding(sub.phase) {
        match e
        case TakeSnapshot(_, frames) => assert x in frames; SnapshotAtMost(latest, frames, x);
        case _ =>
      }
    }
  }

  lemma SnapshotAtMost(latest: Latest, frames: seq<Frame>, x: Frame)
    requires IsSnapshot(latest, frames) && x in frames
    ensures AtMost(x, latest)
  {
  }

  lemma OrderProducer(s: State, e: Event)
    requires OrderInv(s) && (e.CacheWrite? || e.Send?)
    ensures OrderInv(Step(s, e))
  {
    hide Ordered, Told, Ms;
    var s' := Step(s, e);
    if e.CacheWrite? && s' != s {
      OfferLater(s.latest, e.update);
      OrderedLater(s.latest, s'.latest, s.log);
      forall id | id in s.subscribers ensures Told(s'.latest, s.subscribers[id]) {
        ToldLater(s.latest, s'.latest, s.subscribers[id]);
      }
    }
    OrderedSend(s.latest, s.log, s.inFlight);
  }

  lemma OrderStep(s: State, e: Event)
    requires OrderInv(s)
    ensures OrderInv(Step(s, e))
  {
    if e.CacheWrite? || e.Send? {
      OrderProducer(s, e);
    } else {
      hide Ordered, Advance, InFlightOk;
      if !e.Accept? && !e.Reject? && !e.Leave? && e.id in s.subscribers {
        ToldAdvance(s.latest, s.log, s.subscribers[e.id], e);
        hide Told;
      }
    }
  }

  lemma {:induction false} OrderRun(s: State, events: seq<Event>)
    requires OrderInv(s)
    ensures OrderInv(Run(s, events))
    decreases |events|
  {
    if events != [] {
      hide OrderInv, Step;
      OrderStep(s, events[0]);
      OrderRun(Step(s, events[0]), events[1..]);
    }
  }

  /** Whenever a subscriber is sent a snapshot, no price in it is older than any of its feed that
      the subscriber was sent before. */
  lemma SnapshotNeverOlder(events: seq<Event>, id: nat, x: Frame, y: Frame)
    requires id in After(events).subscribers && x in After(events).subscribers[id].received && x.Price?
    requires exists frames :: IsSnapshot(After(events).latest, frames) && y in frames && y.feed == x.feed
    ensures x.timeMs <= y.timeMs
  {
    OrderRun(Start, events);
    var sub := After(events).subscribers[id];
    assert x in sub.received + Outstanding(sub.phase);
  }

  // ----- since a subscriber's last snapshot

  /** Taken from the snapshot or before it, or no later than a channel frame already read. */
  ghost predicate Explained(y: Frame, shown: Latest, log: seq<Frame>, next: nat) {
    y.Price? ==> AtMost(y, shown)
                 || exists j :: 0 <= j < next && j < |log| && log[j].Price? && log[j].feed == y.feed && y.timeMs <= log[j].timeMs
  }

  ghost predicate SinceSub(shown: Latest, log: seq<Frame>, sub: Subscriber) {
    sub.phase.Serving? ==>
      && (forall f :: f in shown ==> Shown(f, shown[f]) in sub.received + sub.phase.pending)
      && (forall y :: y in sub.received + sub.phase.pending ==> Explained(y, shown, log, sub.next))
  }

  /** What holds after a snapshot of `shown` was taken when `mark` frames had been enqueued. */
  ghost predicate Since(s: State, id: nat, mark: nat, shown: Latest) {
    && NotBefore(shown, s.latest)
    && (forall i :: mark <= i < |s.log| && s.log[i].Price? && s.log[i].feed in shown ==>
                      Ms(shown[s.log[i].feed]) <= s.log[i].timeMs)
    && (id in s.subscribers ==> SinceSub(shown, s.log, s.subscribers[id]))
  }

  lemma SinceStart(s: State, id: nat, frames: seq<Frame>)
    requires OrderInv(s) && id in s.subscribers && s.subscribers[id].phase.Subscribed? && IsSnapshot(s.latest, frames)
    ensures Since(Step(s, TakeSnapshot(id, frames)), id, |s.log|, s.latest)
  {
    hide Ms;
    var s' := Step(s, TakeSnapshot(id, frames));
    var sub, sub' := s.subscribers[id], s'.subscribers[id];
    OrderStep(s, TakeSnapshot(id, frames));
    assert Told(s.latest, sub');
    forall f | f in s.latest ensures Shown(f, s.latest[f]) in sub'.received + sub'.phase.pending {
      assert Shown(f, s.latest[f]) in frames;
    }
  }

  lemma SinceLater(older: Latest, latest: Latest, shown: Latest)
    requires NotBefore(shown, older) && NotBefore(older, latest)
    ensures NotBefore(shown, latest)
  {
  }

  lemma ExplainedMore(y: Frame, shown: Latest, log: seq<Frame>, more: seq<Frame>, next: nat)
    requires Explained(y, shown, log, next)
    ensures Explained(y, shown, log + more, next)
  {
    hide Ms;
    if y.Price? && !AtMost(y, shown) {
      var j :| 0 <= j < next && j < |log| && log[j].Price? && log[j].feed == y.feed && y.timeMs <= log[j].timeMs;
      assert (log + more)[j] == log[j];
    }
  }

  lemma SinceSubMore(shown: Latest, log: seq<Frame>, more: seq<Frame>, sub: Subscriber)
    requires SinceSub(shown, log, sub)
    ensures SinceSub(shown, log + more, sub)
  {
    hide Explained;
    if sub.phase.Serving? {
      forall y | y in sub.received + sub.phase.pending ensures Explained(y, shown, log + more, sub.next) {
        ExplainedMore(y, shown, log, more, sub.next);
      }
    }
  }

  lemma SinceAdvance(shown: Latest, latest: Latest, log: seq<Frame>, sub: Subscriber, e: Event)
    requires SinceSub(shown, log, sub) && !e.TakeSnapshot? && Ordered(latest, log)
    ensures SinceSub(shown, log, Advance(latest, log, sub, e))
  {
    hide Ms;
    var sub' := Advance(latest, log, sub, e);
    if sub'.phase.Serving? && sub' != sub {
      forall y | y in sub.received + sub.phase.pending ensures Explained(y, shown, log, sub'.next) {
        ExplainedOn(y, shown, log, sub.next, sub'.next);
      }
      var told, told' := sub.received + sub.phase.pending, sub'.received + sub'.phase.pending;
      if e.WriteFrame? {
        assert told' == told;
      } else if e.WriteHeartbeat? {
        assert forall y :: y in told' <==> y in told || y == Heartbeat;
      } else {
        assert forall y :: y in told' <==> y in told || y == log[sub.next];
        assert Explained(log[sub.next], shown, log, sub'.next);
      }
      hide Explained;
    }
  }

  lemma ExplainedOn(y: Frame, shown: Latest, log: seq<Frame>, next: nat, next': nat)
    requires Explained(y, shown, log, next) && next <= next'
    ensures Explained(y, shown, log, next')
  {
  }

  lemma SinceSend(s: State, id: nat, mark: nat, shown: Latest)
    requires OrderInv(s) && Since(s, id, mark, shown)
    ensures Since(Step(s, Send), id, mark, shown)
  {
    hide Ms, SinceSub;
    if s.inFlight != [] {
      assert s.inFlight[0] in s.inFlight && s.log + s.inFlight == s.log + [s.inFlight[0]];
      CurrentMs(s.latest, s.inFlight[0]);
    }
    if id in s.subscribers { SinceSubMore(shown, s.log, s.inFlight, s.subscribers[id]); }
  }

  lemma CurrentMs(latest: Latest, x: Frame)
    requires x.Price? && Current(latest, x.feed) == Some(x)
    ensures x.feed in latest && x.timeMs == Ms(latest[x.feed])
  {
  }

  lemma SinceWrite(s: State, id: nat, mark: nat, shown: Latest, u: Update)
    requires OrderInv(s) && Since(s, id, mark, shown)
    ensures Since(Step(s, CacheWrite(u)), id, mark, shown)
  {
    hide Ms, SinceSub, OrderInv;
    var s' := Step(s, CacheWrite(u));
    if s' != s {
      OfferLater(s.latest, u);
      SinceLater(s.latest, s'.latest, shown);
    }
  }

  lemma SinceStep(s: State, id: nat, mark: nat, shown: Latest, e: Event)
    requires OrderInv(s) && Since(s, id, mark, shown) && !(e.TakeSnapshot? && e.id == id)
    ensures Since(Step(s, e), id, mark, shown)
  {
    hide Ms, Ordered, Advance, Told, Explained;
    if e.CacheWrite? {
      SinceWrite(s, id, mark, shown, e.update);
    } else if e.Send? {
      SinceSend(s, id, mark, shown);
    } else if !e.Accept? && !e.Reject? && !e.Leave? && e.id == id && id in s.subscribers {
      SinceAdvance(shown, s.latest, s.log, s.subscribers[id], e);
    }
  }

  lemma {:induction false} SinceRun(s: State, id: nat, mark: nat, shown: Latest, events: seq<Event>)
    requires OrderInv(s) && Since(s, id, mark, shown)
    requires forall k :: 0 <= k < |events| ==> !(events[k].TakeSnapshot? && events[k].id == id)
    ensures OrderInv(Run(s, events)) && Since(Run(s, events), id, mark, shown)
    decreases |events|
  {
    if events != [] {
      hide OrderInv, Since, Step;
      OrderStep(s, events[0]);
      SinceStep(s, id, mark, shown, events[0]);
      SinceRun(Step(s, events[0]), id, mark, shown, events[1..]);
    }
  }

  /** A price of the feed that is later than the frame. */
  ghost predicate SentLater(received: seq<Frame>, x: Frame)
    requires x.Price?
  {
    exists y :: y in received && y.Price? && y.feed == x.feed && y.timeMs > x.timeMs
  }

  lemma OlderIff(s: State, id: nat, mark: nat, shown: Latest)
    requires OrderInv(s) && Since(s, id, mark, shown)
    requires id in s.subscribers && s.subscribers[id].phase == Serving([]) && s.subscribers[id].next < |s.log|
    ensures var sub, x := s.subscribers[id], s.log[s.subscribers[id].next];
            && x.Price?
            && (SentLater(sub.received, x) <==>
                sub.next < mark && x.feed in shown && Ms(shown[x.feed]) > x.timeMs)
  {
    var sub, x := s.subscribers[id], s.log[s.subscribers[id].next];
    assert sub.received + [] == sub.received;
    if SentLater(sub.received, x) {
      var y :| y in sub.received && y.Price? && y.feed == x.feed && y.timeMs > x.timeMs;
      assert Explained(y, shown, s.log, sub.next);
    }
    if x.feed in shown && Ms(shown[x.feed]) > x.timeMs {
      assert Shown(x.feed, shown[x.feed]) in sub.received;
    }
  }

  lemma StartOrdered()
    ensures OrderInv(Start)
  {
  }

  /** After every interleaving: the next frame a subscriber reads from the channel is older than
      one of its feed that it was sent before exactly if the frame was enqueued before its last
      snapshot was taken and that snapshot already showed a later price. */
  lemma ReceivedOlderIff(before: seq<Event>, id: nat, frames: seq<Frame>, after: seq<Event>)
    requires var s := After(before);
             id in s.subscribers && s.subscribers[id].phase.Subscribed? && IsSnapshot(s.latest, frames)
    requires forall k :: 0 <= k < |after| ==> !(after[k].TakeSnapshot? && after[k].id == id)
    requires var s := Run(Step(After(before), TakeSnapshot(id, frames)), after);
             id in s.subscribers && s.subscribers[id].phase == Serving([]) && s.subscribers[id].next < |s.log|
    ensures var s0, s := After(before), Run(Step(After(before), TakeSnapshot(id, frames)), after);
            var sub, x := s.subscribers[id], s.log[s.subscribers[id].next];
            && x.Price?
            && (SentLater(sub.received, x) <==>
                sub.next < |s0.log| && x.feed in s0.latest && Ms(s0.latest[x.feed]) > x.timeMs)
  {
    hide Run, Step, Since, OrderInv, SentLater;
    var s0 := After(before);
    StartOrdered();
    OrderRun(Start, before);
    SinceStart(s0, id, frames);
    OrderStep(s0, TakeSnapshot(id, frames));
    SinceRun(Step(s0, TakeSnapshot(id, frames)), id, |s0.log|, s0.latest, after);
    OlderIff(Run(Step(s0, TakeSnapshot(id, frames)), after), id, |s0.log|, s0.latest);
  }

  // ----- the greeting

  /** Nothing told to the subscriber after its first frame is a greeting. */
  ghost predicate OnceGreeted(sub: Subscriber) {
    var told := sub.received + Outstanding(sub.phase);
    (sub.phase == Connecting ==> told == []) && NoLateHello(told)
  }

  ghost predicate NoLateHello(told: seq<Frame>) {
    forall i :: 0 < i < |told| ==> told[i] != Hello
  }

  lemma ToldMore(told: seq<Frame>, more: seq<Frame>)
    requires NoLateHello(told) && (forall i :: 0 <= i < |more| ==> more[i] != Hello)
    ensures NoLateHello(told + more)
  {
  }

  lemma ToldLess(told: seq<Frame>, n: nat)
    requires NoLateHello(told) && n <= |told|
    ensures NoLateHello(told[..n]) && NoLateHello([Hello])
  {
  }

  lemma GreetAdvance(latest: Latest, log: seq<Frame>, sub: Subscriber, e: Event)
    requires OnceGreeted(sub) && Ordered(latest, log)
    ensures OnceGreeted(Advance(latest, log, sub, e))
  {
    hide Ms, AtMost, NoLateHello;
    var sub' := Advance(latest, log, sub, e);
    var told, told' := sub.received + Outstanding(sub.phase), sub'.received + Outstanding(sub'.phase);
    if sub' != sub {
      match e
      case TakeSnapshot(_, frames) =>
        assert told' == told + frames;
        ToldMore(told, frames);
      case WriteFrame(_) => assert told' == told;
      case WriteHeartbeat(_) =>
        assert told' == told + [Heartbeat];
        ToldMore(told, [Heartbeat]);
      case Receive(_) =>
        assert told' == told + [log[sub.next]];
        ToldMore(told, [log[sub.next]]);
      case Lag(_) => assert told' == told;
      case Close(_) =>
        assert told' == told[..|sub.received|];
        ToldLess(told, |sub.received|);
      case Subscribe(_) =>
        assert told' == [Hello];
        ToldLess(told, 0);
    }
  }

  ghost predicate AllOnce(s: State) {
    forall id :: id in s.subscribers ==> OnceGreeted(s.subscribers[id])
  }

  lemma GreetStep(s: State, e: Event)
    requires OrderInv(s) && AllOnce(s)
    ensures AllOnce(Step(s, e))
  {
    if !e.CacheWrite? && !e.Send? && !e.Accept? && !e.Reject? && !e.Leave? && e.id in s.subscribers {
      GreetAdvance(s.latest, s.log, s.subscribers[e.id], e);
      hide Advance;
    }
  }

  lemma {:induction false} GreetRun(s: State, events: seq<Event>)
    requires OrderInv(s) && AllOnce(s)
    ensures AllOnce(Run(s, events))
    decreases |events|
  {
    if events != [] {
      hide OrderInv, AllOnce, Step;
      OrderStep(s, events[0]);
      GreetStep(s, events[0]);
      GreetRun(Step(s, events[0]), events[1..]);
    }
  }

  /** However often it lags, a subscriber is greeted once, with its first frame. */
  lemma GreetedOnce(events: seq<Event>, id: nat, i: nat)
    requires id in After(events).subscribers && i < |After(events).subscribers[id].received|
    requires HasCursor(After(events).subscribers[id].phase)
    ensures After(events).subscribers[id].received[i] == Hello <==> i == 0
  {
    GreetRun(Start, events);
    RunKeeps(Start, events);
    var sub := After(events).subscribers[id];
    hide Run, Last;
    assert SubscriberInv(After(events).latest, After(events).log, After(events).inFlight, sub);
    assert (sub.received + Outstanding(sub.phase))[i] == sub.received[i];
  }

  // ----- a run in which it happens

  const EARLY := Update(5, [], 0, 1_000_000, 1)
  const LATE := Update(5, [], 0, 2_000_000, 2)

  ghost predicate Reachable(s: State) {
    exists events :: After(events) == s
  }

  lemma {:induction false} RunLast(s: State, events: seq<Event>, e: Event)
    ensures Run(s, events + [e]) == Step(Run(s, events), e)
    decreases |events|
  {
    if events == [] {
      assert events + [e] == [e] && Run(s, [e]) == Run(Step(s, e), []);
    } else {
      assert (events + [e])[0] == events[0] && (events + [e])[1..] == events[1..] + [e];
      RunLast(Step(s, events[0]), events[1..], e);
    }
  }

  lemma Then(s: State, e: Event, s': State)
    requires Reachable(s) && Step(s, e) == s'
    ensures Reachable(s')
  {
    var events :| After(events) == s;
    RunLast(Start, events, e);
    assert After(events + [e]) == s';
  }

  function One(latest: Latest, inFlight: seq<Frame>, log: seq<Frame>, sub: Subscriber): State {
    State(latest, inFlight, log, map[0 := sub], 1, false)
  }

  /** Both prices are sent between the subscription and the snapshot. */
  lemma BothSent() returns (s: State)
    ensures s == One(map[5 := Entry(LATE)], [], [Shown(5, Entry(EARLY)), Shown(5, Entry(LATE))], Subscriber(Subscribed([Hello]), 0, []))
    ensures Reachable(s)
  {
    var x, y := Shown(5, Entry(EARLY)), Shown(5, Entry(LATE));
    var sub := Subscriber(Subscribed([Hello]), 0, []);
    assert After([]) == Start;
    var s1 := One(map[], [], [], Subscriber(Connecting, 0, []));
    Then(Start, Accept(0), s1);
    var s2 := One(map[], [], [], sub);
    Then(s1, Subscribe(0), s2);
    var s3 := One(map[5 := Entry(EARLY)], [x], [], sub);
    Then(s2, CacheWrite(EARLY), s3);
    assert HasCursor(s3.subscribers[0].phase);
    var s4 := One(map[5 := Entry(EARLY)], [], [x], sub);
    Then(s3, Send, s4);
    var s5 := One(map[5 := Entry(LATE)], [y], [x], sub);
    Then(s4, CacheWrite(LATE), s5);
    assert HasCursor(s5.subscribers[0].phase);
    s := One(map[5 := Entry(LATE)], [], [x, y], sub);
    Then(s5, Send, s);
  }

  lemma Writes(latest: Latest, log: seq<Frame>, pending: seq<Frame>, rest: seq<Frame>,
               next: nat, received: seq<Frame>, more: seq<Frame>)
    requires pending != [] && rest == pending[1..] && more == received + [pending[0]]
    ensures Step(One(latest, [], log, Subscriber(Serving(pending), next, received)), WriteFrame(0))
            == One(latest, [], log, Subscriber(Serving(rest), next, more))
  {
    assert received + pending[..1] == more;
  }

  lemma Shows(latest: Latest, log: seq<Frame>, y: Frame)
    requires y == Shown(5, Entry(LATE)) && latest == map[5 := Entry(LATE)]
    ensures Step(One(latest, [], log, Subscriber(Subscribed([Hello]), 0, [])), TakeSnapshot(0, [y]))
            == One(latest, [], log, Subscriber(Serving([Hello, y]), 0, []))
  {
    assert [Hello] + [y] == [Hello, y];
  }

  lemma Reads(latest: Latest, log: seq<Frame>, received: seq<Frame>)
    requires 0 < |log| <= CAPACITY
    ensures Step(One(latest, [], log, Subscriber(Serving([]), 0, received)), Receive(0))
            == One(latest, [], log, Subscriber(Serving([log[0]]), 1, received))
  {
  }

  /** A subscriber is shown the later price by its snapshot and then the earlier one. */
  lemma OlderShown() returns (events: seq<Event>)
    ensures var s := After(events);
            0 in s.subscribers && s.subscribers[0].received == [Hello, Shown(5, Entry(LATE)), Shown(5, Entry(EARLY))]
    ensures Ms(Entry(EARLY)) < Ms(Entry(LATE))
  {
    hide Reachable, Advance, Step;
    var s := BothSent();
    var x, y := Shown(5, Entry(EARLY)), Shown(5, Entry(LATE));
    var s1 := One(s.latest, [], [x, y], Subscriber(Serving([Hello, y]), 0, []));
    Shows(s.latest, [x, y], y);
    Then(s, TakeSnapshot(0, [y]), s1);
    var s2 := One(s.latest, [], [x, y], Subscriber(Serving([y]), 0, [Hello]));
    Writes(s.latest, [x, y], [Hello, y], [y], 0, [], [Hello]);
    Then(s1, WriteFrame(0), s2);
    var s3 := One(s.latest, [], [x, y], Subscriber(Serving([]), 0, [Hello, y]));
    Writes(s.latest, [x, y], [y], [], 0, [Hello], [Hello, y]);
    Then(s2, WriteFrame(0), s3);
    var s4 := One(s.latest, [], [x, y], Subscriber(Serving([x]), 1, [Hello, y]));
    Reads(s.latest, [x, y], [Hello, y]);
    Then(s3, Receive(0), s4);
    var s5 := One(s.latest, [], [x, y], Subscriber(Serving([]), 1, [Hello, y, x]));
    Writes(s.latest, [x, y], [x], [], 1, [Hello, y], [Hello, y, x]);
    Then(s4, WriteFrame(0), s5);
    events := Witness(s5);
  }

  lemma Witness(s: State) returns (events: seq<Event>)
    requires Reachable(s)
    ensures After(events) == s
  {
    events :| After(events) == s;
  }
}
