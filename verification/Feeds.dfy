/** The price-feed cache of the Stork ingester: which offered updates it accepts, what it
    holds after any sequence of offers, and the snapshot it serves.
 */
module Feeds {
  import opened Bytes

  const NANOS_PER_MILLISECOND := 1_000_000

  /** Every key carries the same provider id, so a feed id (a 256-bit number) is the key. */
  datatype Update = Update(feed: nat, payload: seq<Byte>, deliveryMs: nat, sourceNs: nat, value: int)

  datatype CachedPrice = CachedPrice(payload: seq<Byte>, deliveryMs: nat, sourceNs: nat, value: int)

  datatype Frame = Hello | Heartbeat | Price(feed: nat, payload: seq<Byte>, timeMs: nat)

  type Latest = map<nat, CachedPrice>

  function Entry(u: Update): CachedPrice {
    CachedPrice(u.payload, u.deliveryMs, u.sourceNs, u.value)
  }

  /** The frame a subscriber is shown for a cached price. */
  function Shown(feed: nat, p: CachedPrice): Frame {
    Price(feed, p.payload, p.sourceNs / NANOS_PER_MILLISECOND)
  }

  /** Older updates are stale; a different value at the cached time is a conflict. */
  predicate Accepts(latest: Latest, u: Update) {
    u.feed in latest ==>
      && latest[u.feed].sourceNs <= u.sourceNs
      && (latest[u.feed].sourceNs == u.sourceNs ==> latest[u.feed].value == u.value)
  }

  function Offer(latest: Latest, u: Update): Latest {
    if Accepts(latest, u) then latest[u.feed := Entry(u)] else latest
  }

  /** The cache after a whole sequence of offers, starting empty. */
  function OfferAll(us: seq<Update>): Latest {
    if us == [] then map[] else Offer(OfferAll(us[..|us| - 1]), us[|us| - 1])
  }

  ghost predicate Accepted(us: seq<Update>, i: nat)
    requires i < |us|
  {
    Accepts(OfferAll(us[..i]), us[i])
  }

  // ----- what the cache holds, said without running it

  /** us[i] is the first update at the greatest source time offered for its feed. */
  ghost predicate Winner(us: seq<Update>, i: nat) {
    && i < |us|
    && forall j :: 0 <= j < |us| && us[j].feed == us[i].feed ==>
                     us[j].sourceNs < us[i].sourceNs || (us[j].sourceNs == us[i].sourceNs && i <= j)
  }

  ghost predicate Agrees(u: Update, v: Update) {
    u.feed == v.feed && u.sourceNs == v.sourceNs && u.value == v.value
  }

  /** us[k] is the last update with the feed, time and value of us[i]. */
  ghost predicate LastAgreeing(us: seq<Update>, i: nat, k: nat) {
    && i < |us| && k < |us| && Agrees(us[k], us[i])
    && forall j :: k < j < |us| ==> !Agrees(us[j], us[i])
  }

  lemma {:induction false} WinnerExists(us: seq<Update>, f: nat) returns (i: nat, k: nat)
    requires exists j :: 0 <= j < |us| && us[j].feed == f
    ensures Winner(us, i) && us[i].feed == f && LastAgreeing(us, i, k)
  {
    var n := |us| - 1;
    var front := us[..n];
    if exists j :: 0 <= j < n && us[j].feed == f {
      var j :| 0 <= j < n && us[j].feed == f;
      assert front[j].feed == f;
      i, k := WinnerExists(front, f);
      if us[n].feed == f && us[i].sourceNs < us[n].sourceNs {
        i, k := n, n;
      } else if Agrees(us[n], us[i]) {
        k := n;
      }
    } else {
      i, k := n, n;
    }
  }

  lemma {:induction false} CachedFeeds(us: seq<Update>, f: nat)
    ensures f in OfferAll(us) <==> exists j :: 0 <= j < |us| && us[j].feed == f
  {
    if us != [] {
      var n := |us| - 1;
      CachedFeeds(us[..n], f);
      if f in OfferAll(us[..n]) {
        var j :| 0 <= j < n && us[..n][j].feed == f;
        assert us[j].feed == f;
      }
      if exists j :: 0 <= j < |us| && us[j].feed == f {
        var j :| 0 <= j < |us| && us[j].feed == f;
        assert j < n ==> us[..n][j].feed == f;
      }
    }
  }

  /** After any sequence of offers the entry of a feed has the greatest offered source time and
      the value of the first update offered at that time; its payload and delivery time are those
      of the last update repeating that time and value. */
  lemma {:induction false} CacheHoldsWinner(us: seq<Update>, i: nat, k: nat)
    requires Winner(us, i) && LastAgreeing(us, i, k)
    ensures us[i].feed in OfferAll(us) && OfferAll(us)[us[i].feed] == Entry(us[k])
    decreases |us|
  {
    var n := |us| - 1;
    var front := us[..n];
    var f := us[i].feed;
    if i == n {
      CachedFeeds(front, f);
      if f in OfferAll(front) {
        var i', k' := WinnerExists(front, f);
        CacheHoldsWinner(front, i', k');
        assert us[i'].sourceNs < us[n].sourceNs;
      }
    } else {
      assert front[i] == us[i];
      var i', k' := WinnerExists(front, f);
      assert us[i'] == front[i'] && i' == i;
      CacheHoldsWinner(front, i, k');
      if k != n {
        assert front[k] == us[k] && k == k';
      }
    }
  }

  /** Once a feed is cached it stays cached, its time never goes back, and its value cannot
      change without its time. */
  lemma {:induction false} EntryMonotone(us: seq<Update>, i: nat, j: nat, f: nat)
    requires i <= j <= |us| && f in OfferAll(us[..i])
    ensures f in OfferAll(us[..j])
    ensures OfferAll(us[..i])[f].sourceNs <= OfferAll(us[..j])[f].sourceNs
    ensures OfferAll(us[..i])[f].sourceNs == OfferAll(us[..j])[f].sourceNs
            ==> OfferAll(us[..i])[f].value == OfferAll(us[..j])[f].value
    decreases j
  {
    if i < j {
      EntryMonotone(us, i, j - 1, f);
      assert us[..j][..j - 1] == us[..j - 1];
    }
  }

  /** Accepted times of a feed never decrease, and all values accepted at one time are equal. */
  lemma AcceptedInOrder(us: seq<Update>, i: nat, j: nat)
    requires i < j < |us| && us[i].feed == us[j].feed && Accepted(us, i) && Accepted(us, j)
    ensures us[i].sourceNs <= us[j].sourceNs
    ensures us[i].sourceNs == us[j].sourceNs ==> us[i].value == us[j].value
  {
    assert us[..i + 1][..i] == us[..i];
    EntryMonotone(us, i + 1, j, us[i].feed);
  }

  ghost predicate ConflictFree(us: seq<Update>) {
    forall i, j :: 0 <= i < |us| && 0 <= j < |us| && us[i].feed == us[j].feed && us[i].sourceNs == us[j].sourceNs
                   ==> us[i].value == us[j].value
  }

  /** Streams without conflicts converge: two orders (and repetitions) of the same updates leave
      the same feeds cached, at the same times with the same values. */
  lemma OrderIrrelevant(us: seq<Update>, vs: seq<Update>, f: nat)
    requires ConflictFree(us) && forall u :: u in us <==> u in vs
    ensures f in OfferAll(us) <==> f in OfferAll(vs)
    ensures f in OfferAll(us) ==>
              && OfferAll(us)[f].sourceNs == OfferAll(vs)[f].sourceNs
              && OfferAll(us)[f].value == OfferAll(vs)[f].value
  {
    CachedFeeds(us, f);
    CachedFeeds(vs, f);
    if f in OfferAll(us) {
      var j :| 0 <= j < |us| && us[j].feed == f;
      assert us[j] in vs;
    }
    if f in OfferAll(vs) {
      var j :| 0 <= j < |vs| && vs[j].feed == f;
      assert vs[j] in us;
      var i, k := WinnerExists(us, f);
      var i', k' := WinnerExists(vs, f);
      CacheHoldsWinner(us, i, k);
      CacheHoldsWinner(vs, i', k');
      assert us[i] in vs && vs[i'] in us;
    }
  }

  // ----- snapshots

  /** One frame per cached feed, in ascending feed order. */
  ghost predicate IsSnapshot(latest: Latest, frames: seq<Frame>) {
    && (forall i :: 0 <= i < |frames| ==>
          frames[i].Price? && frames[i].feed in latest && frames[i] == Shown(frames[i].feed, latest[frames[i].feed]))
    && (forall i, j :: 0 <= i < j < |frames| ==> frames[i].Price? && frames[j].Price? && frames[i].feed < frames[j].feed)
    && (forall f :: f in latest ==> Shown(f, latest[f]) in frames)
  }

  lemma {:induction false} LeastExists(s: set<nat>) returns (least: nat)
    requires s != {}
    ensures least in s && forall x :: x in s ==> least <= x
    decreases |s|
  {
    least :| least in s;
    if s != {least} {
      var rest := s - {least};
      assert s == rest + {least};
      var other := LeastExists(rest);
      if other < least { least := other; }
    }
  }

  lemma ShownFeed(f: nat, p: CachedPrice)
    ensures Shown(f, p).Price? && Shown(f, p).feed == f
  {
  }

  lemma SnapshotPrepend(rest: Latest, least: nat, p: CachedPrice, tail: seq<Frame>)
    requires IsSnapshot(rest, tail) && forall f :: f in rest ==> least < f
    ensures IsSnapshot(rest[least := p], [Shown(least, p)] + tail)
  {
    hide Shown;
    ShownFeed(least, p);
    var frames, all := [Shown(least, p)] + tail, rest[least := p];
    forall i | 0 < i < |frames|
      ensures frames[i].Price? && frames[i].feed in rest && frames[i] == Shown(frames[i].feed, rest[frames[i].feed])
    {
      assert frames[i] == tail[i - 1];
    }
    forall f | f in all
      ensures Shown(f, all[f]) in frames
    {
      if f == least {
        assert frames[0] == Shown(f, all[f]);
      } else {
        var k :| 0 <= k < |tail| && tail[k] == Shown(f, rest[f]);
        assert frames[k + 1] == tail[k];
      }
    }
  }

  lemma {:induction false} SnapshotExists(latest: Latest) returns (frames: seq<Frame>)
    ensures IsSnapshot(latest, frames)
    decreases |latest|
  {
    if latest == map[] {
      frames := [];
    } else {
      var least := LeastExists(latest.Keys);
      var rest := latest - {least};
      assert rest.Keys == latest.Keys - {least};
      var tail := SnapshotExists(rest);
      SnapshotPrepend(rest, least, latest[least], tail);
      assert rest[least := latest[least]] == latest;
      frames := [Shown(least, latest[least])] + tail;
    }
  }

  lemma {:induction false} SnapshotSize(latest: Latest, frames: seq<Frame>)
    requires IsSnapshot(latest, frames)
    ensures |frames| == |latest|
    decreases |frames|
  {
    if frames != [] {
      var n := |frames| - 1;
      var f := frames[n].feed;
      var rest := latest - {f};
      assert rest.Keys == latest.Keys - {f};
      forall g | g in rest
        ensures Shown(g, rest[g]) in frames[..n]
      {
        assert Shown(g, latest[g]) in frames && frames[n].feed != g;
      }
      SnapshotSize(rest, frames[..n]);
    }
  }

  class FeedCache {
    var latest: Latest
    var live: seq<Frame>  // every frame handed to the broadcast channel, oldest first
    var ingested: nat
    var dropped: nat

    constructor ()
      ensures latest == map[] && live == [] && ingested == 0 && dropped == 0
    {
      latest, live, ingested, dropped := map[], [], 0, 0;
    }

    /** One offer: either it is ingested and broadcast, or it is counted as dropped. */
    method Insert(update: Update) returns (accepted: bool)
      modifies this
      ensures accepted == Accepts(old(latest), update)
      ensures latest == Offer(old(latest), update)
      ensures live == old(live) + if accepted then [Price(update.feed, update.payload, update.sourceNs / 1_000_000)] else []
      ensures accepted ==>
                latest == old(latest)[update.feed := CachedPrice(update.payload, update.deliveryMs, update.sourceNs, update.value)]
      ensures !accepted <==>
                && update.feed in old(latest)
                && (|| update.sourceNs < old(latest)[update.feed].sourceNs
                    || (update.sourceNs == old(latest)[update.feed].sourceNs && update.value != old(latest)[update.feed].value))
      ensures ingested == old(ingested) + (if accepted then 1 else 0)
      ensures ingested + dropped == old(ingested + dropped) + 1
    {
      if update.feed in latest {
        var existing := latest[update.feed];
        if update.sourceNs < existing.sourceNs {
          dropped := dropped + 1;
          return false;
        }
        if update.sourceNs == existing.sourceNs && update.value != existing.value {
          dropped := dropped + 1;
          return false;
        }
      }
      latest := latest[update.feed := CachedPrice(update.payload, update.deliveryMs, update.sourceNs, update.value)];
      var frame := Price(update.feed, update.payload, update.sourceNs / NANOS_PER_MILLISECOND);
      ingested := ingested + 1;
      live := live + [frame];
      return true;
    }

    method RecordDropped(count: nat)
      modifies this`dropped
      ensures dropped == old(dropped) + count
    {
      dropped := dropped + count;
    }

    method Snapshot() returns (frames: seq<Frame>)
      ensures IsSnapshot(latest, frames)
      ensures forall i :: 0 <= i < |frames| ==>
                && frames[i].Price? && frames[i].feed in latest
                && frames[i].payload == latest[frames[i].feed].payload
                && frames[i].timeMs == latest[frames[i].feed].sourceNs / 1_000_000
    {
      frames := [];
      var rest := latest.Keys;
      while rest != {}
        invariant rest <= latest.Keys
        invariant forall i :: 0 <= i < |frames| ==>
                    && frames[i].Price? && frames[i].feed in latest.Keys - rest
                    && frames[i] == Shown(frames[i].feed, latest[frames[i].feed])
        invariant forall i, j :: 0 <= i < j < |frames| ==> frames[i].feed < frames[j].feed
        invariant forall i, f :: 0 <= i < |frames| && f in rest ==> frames[i].feed < f
        invariant forall f :: f in latest.Keys - rest ==> Shown(f, latest[f]) in frames
        decreases |rest|
      {
        ghost var least := LeastExists(rest);
        var f :| f in rest && forall x :: x in rest ==> f <= x;
        frames := frames + [Shown(f, latest[f])];
        rest := rest - {f};
      }
    }
  }
}
