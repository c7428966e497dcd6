/** The path of one message through the ingester: decode, verify, publish under every subscribed
    feed, and count what was ingested or dropped.
 */
module Ingest {
  import opened Bytes
  import opened Feeds
  import opened Payload

  const U64_MAX := 0xFFFF_FFFF_FFFF_FFFF
  const NANOS_PER_SECOND := 1_000_000_000
  const MAX_FUTURE_SECONDS := 6

  type U64 = n: int | 0 <= n <= 0xFFFF_FFFF_FFFF_FFFF

  function SaturatingAdd(a: U64, b: U64): U64 {
    if a + b > U64_MAX then U64_MAX else a + b
  }

  function SaturatingSub(a: U64, b: U64): U64 {
    if a < b then 0 else a - b
  }

  function SaturatingMul(a: U64, b: U64): U64 {
    if a * b > U64_MAX then U64_MAX else a * b
  }

  datatype Verdict = Verified | TaxonomyMismatch | DuplicateAsset(assetId: nat) | FutureDated | Stale

  ghost predicate RepeatsAt(assets: seq<AssetValue>, j: nat) {
    j < |assets| && exists i :: 0 <= i < j && assets[i].assetId == assets[j].assetId
  }

  ghost predicate NoRepeats(assets: seq<AssetValue>) {
    forall i, j :: 0 <= i < j < |assets| ==> assets[i].assetId != assets[j].assetId
  }

  /** The checks in order. The freshness window is said over unbounded integers; the code
      computes it in saturating 64-bit arithmetic. */
  method Verify(payload: FastPayload, taxonomy: nat, nowNs: U64, maxAgeSec: U64) returns (v: Verdict)
    requires payload.timestampNs <= U64_MAX
    ensures v == TaxonomyMismatch <==> payload.taxonomy != taxonomy
    ensures v.DuplicateAsset? <==> payload.taxonomy == taxonomy && !NoRepeats(payload.assets)
    ensures v.DuplicateAsset? ==>
              exists j: nat :: RepeatsAt(payload.assets, j) && v.assetId == payload.assets[j].assetId && NoRepeats(payload.assets[..j])
    ensures v == FutureDated <==>
              && payload.taxonomy == taxonomy && NoRepeats(payload.assets)
              && payload.timestampNs > nowNs + 6_000_000_000
    ensures v == Stale <==>
              && payload.taxonomy == taxonomy && NoRepeats(payload.assets)
              && nowNs - payload.timestampNs > maxAgeSec * 1_000_000_000
  {
    if payload.taxonomy != taxonomy {
      return TaxonomyMismatch;
    }
    var seen: set<nat> := {};
    for j := 0 to |payload.assets|
      invariant seen == set i | 0 <= i < j :: payload.assets[i].assetId
      invariant NoRepeats(payload.assets[..j])
    {
      var id := payload.assets[j].assetId;
      if id in seen {
        assert RepeatsAt(payload.assets, j);
        return DuplicateAsset(id);
      }
      seen := seen + {id};
    }
    assert payload.assets[..|payload.assets|] == payload.assets;
    if payload.timestampNs > SaturatingAdd(nowNs, MAX_FUTURE_SECONDS * NANOS_PER_SECOND) {
      return FutureDated;
    }
    if SaturatingSub(nowNs, payload.timestampNs) > SaturatingMul(maxAgeSec, NANOS_PER_SECOND) {
      return Stale;
    }
    return Verified;
  }

  // ----- which updates a payload stands for

  /** Subscribed assets: asset id to feed id. */
  type Assets = map<nat, nat>

  ghost function Named(assets: Assets, values: seq<AssetValue>): set<nat> {
    set v | v in values && v.assetId in assets :: v.assetId
  }

  function ToUpdate(assets: Assets, p: FastPayload, deliveryMs: nat, v: AssetValue): Update
    requires v.assetId in assets
  {
    Update(assets[v.assetId], p.raw, deliveryMs, p.timestampNs, v.value)
  }

  function Updates(assets: Assets, p: FastPayload, deliveryMs: nat, n: nat): seq<Update>
    requires n <= |p.assets|
  {
    if n == 0 then []
    else
      var v := p.assets[n - 1];
      var front := Updates(assets, p, deliveryMs, n - 1);
      if v.assetId in assets then front + [ToUpdate(assets, p, deliveryMs, v)] else front
  }

  function OfferFrom(latest: Latest, us: seq<Update>): Latest {
    if us == [] then latest else Offer(OfferFrom(latest, us[..|us| - 1]), us[|us| - 1])
  }

  lemma OfferLast(latest: Latest, front: seq<Update>, u: Update)
    ensures OfferFrom(latest, front + [u]) == Offer(OfferFrom(latest, front), u)
  {
    assert (front + [u])[..|front|] == front;
  }

  lemma NamedGrows(assets: Assets, front: seq<AssetValue>, v: AssetValue)
    requires NoRepeats(front + [v])
    ensures NoRepeats(front) && v.assetId !in Named(assets, front)
    ensures Named(assets, front + [v]) == Named(assets, front) + (if v.assetId in assets then {v.assetId} else {})
  {
    var all := front + [v];
    assert forall i :: 0 <= i < |front| ==> all[i] == front[i];
    assert all[|front|] == v;
    assert forall x :: x in all <==> x in front || x == v;
  }

  lemma {:induction false} CountUpdates(assets: Assets, p: FastPayload, deliveryMs: nat, n: nat)
    requires n <= |p.assets| && NoRepeats(p.assets[..n])
    ensures |Updates(assets, p, deliveryMs, n)| == |Named(assets, p.assets[..n])|
  {
    if n > 0 {
      assert p.assets[..n] == p.assets[..n - 1] + [p.assets[n - 1]];
      NamedGrows(assets, p.assets[..n - 1], p.assets[n - 1]);
      CountUpdates(assets, p, deliveryMs, n - 1);
    }
  }

  lemma SubsetSize(a: set<nat>, b: set<nat>)
    requires a <= b
    ensures |a| <= |b|
  {
    assert |b - a| + |a| == |b| by { assert b == a + (b - a); }
  }

  /** Distinct feeds: a batch without repeated assets acts on each feed on its own. */
  ghost predicate Injective(assets: Assets) {
    forall a, b :: a in assets && b in assets && assets[a] == assets[b] ==> a == b
  }

  ghost predicate SameAt(a: Latest, b: Latest, f: nat) {
    (f in a <==> f in b) && (f in a ==> a[f] == b[f])
  }

  /** An offer changes its own feed only, as a function of that feed's entry. */
  lemma OfferLocal(a: Latest, b: Latest, u: Update, f: nat)
    requires SameAt(a, b, f)
    ensures u.feed != f ==> SameAt(Offer(a, u), b, f)
    ensures u.feed == f ==> SameAt(Offer(a, u), Offer(b, u), f)
  {
  }

  /** The last value of a prefix is offered if it is subscribed. */
  lemma OfferNext(assets: Assets, p: FastPayload, deliveryMs: nat, n: nat, latest: Latest)
    requires 0 < n <= |p.assets|
    ensures var v := p.assets[n - 1];
            var before := OfferFrom(latest, Updates(assets, p, deliveryMs, n - 1));
            OfferFrom(latest, Updates(assets, p, deliveryMs, n))
            == if v.assetId in assets then Offer(before, ToUpdate(assets, p, deliveryMs, v)) else before
  {
    var v := p.assets[n - 1];
    if v.assetId in assets {
      OfferLast(latest, Updates(assets, p, deliveryMs, n - 1), ToUpdate(assets, p, deliveryMs, v));
    }
  }

  lemma {:induction false} OthersUntouched(assets: Assets, p: FastPayload, deliveryMs: nat, n: nat, latest: Latest, f: nat)
    requires n <= |p.assets|
    requires forall i :: 0 <= i < n && p.assets[i].assetId in assets ==> assets[p.assets[i].assetId] != f
    ensures SameAt(OfferFrom(latest, Updates(assets, p, deliveryMs, n)), latest, f)
  {
    if n > 0 {
      hide Offer, OfferFrom, Updates, SameAt;
      OthersUntouched(assets, p, deliveryMs, n - 1, latest, f);
      OfferNext(assets, p, deliveryMs, n, latest);
      var v := p.assets[n - 1];
      if v.assetId in assets {
        OfferLocal(OfferFrom(latest, Updates(assets, p, deliveryMs, n - 1)), latest, ToUpdate(assets, p, deliveryMs, v), f);
      }
    }
  }

  /** Each named feed ends as a single offer of its own value would leave it. */
  lemma {:induction false} OffersIndependent(assets: Assets, p: FastPayload, deliveryMs: nat, n: nat, latest: Latest, i: nat)
    requires i < n <= |p.assets| && NoRepeats(p.assets) && Injective(assets) && p.assets[i].assetId in assets
    ensures SameAt(OfferFrom(latest, Updates(assets, p, deliveryMs, n)),
                   Offer(latest, ToUpdate(assets, p, deliveryMs, p.assets[i])), assets[p.assets[i].assetId])
  {
    hide Offer, OfferFrom, Updates, SameAt;
    var v, u, f := p.assets[n - 1], ToUpdate(assets, p, deliveryMs, p.assets[i]), assets[p.assets[i].assetId];
    var before := OfferFrom(latest, Updates(assets, p, deliveryMs, n - 1));
    OfferNext(assets, p, deliveryMs, n, latest);
    if i < n - 1 {
      OffersIndependent(assets, p, deliveryMs, n - 1, latest, i);
      if v.assetId in assets {
        OfferLocal(before, Offer(latest, u), ToUpdate(assets, p, deliveryMs, v), f);
      }
    } else {
      OthersUntouched(assets, p, deliveryMs, n - 1, latest, f);
      OfferLocal(before, latest, u, f);
    }
  }

  /** What becomes of a feed's entry when a payload names it: the payload's raw bytes, delivery time,
      own time and value, unless the cache has a later price or another value for that time. */
  ghost predicate EntryFrom(before: Latest, after: Latest, f: nat, p: FastPayload, deliveryMs: nat, value: int) {
    && f in after
    && if f in before && (before[f].sourceNs > p.timestampNs || (before[f].sourceNs == p.timestampNs && before[f].value != value))
       then after[f] == before[f]
       else after[f] == CachedPrice(p.raw, deliveryMs, p.timestampNs, value)
  }

  lemma NamedEntry(assets: Assets, p: FastPayload, deliveryMs: nat, latest: Latest, i: nat)
    requires i < |p.assets| && NoRepeats(p.assets) && Injective(assets) && p.assets[i].assetId in assets
    ensures EntryFrom(latest, OfferFrom(latest, Updates(assets, p, deliveryMs, |p.assets|)), assets[p.assets[i].assetId],
                      p, deliveryMs, p.assets[i].value)
  {
    hide OfferFrom, Updates;
    OffersIndependent(assets, p, deliveryMs, |p.assets|, latest, i);
  }

  lemma OtherEntry(assets: Assets, p: FastPayload, deliveryMs: nat, latest: Latest, f: nat)
    requires forall i :: 0 <= i < |p.assets| && p.assets[i].assetId in assets ==> assets[p.assets[i].assetId] != f
    ensures SameAt(OfferFrom(latest, Updates(assets, p, deliveryMs, |p.assets|)), latest, f)
  {
    OthersUntouched(assets, p, deliveryMs, |p.assets|, latest, f);
  }

  /** A verified payload, feed by feed. */
  ghost predicate Published(assets: Assets, p: FastPayload, deliveryMs: nat, before: Latest, after: Latest) {
    && (Injective(assets) ==>
          forall i :: 0 <= i < |p.assets| && p.assets[i].assetId in assets ==>
                        EntryFrom(before, after, assets[p.assets[i].assetId], p, deliveryMs, p.assets[i].value))
    && (forall f :: (forall i :: 0 <= i < |p.assets| && p.assets[i].assetId in assets ==> assets[p.assets[i].assetId] != f)
                    ==> SameAt(after, before, f))
  }

  lemma PublishedIs(assets: Assets, p: FastPayload, deliveryMs: nat, latest: Latest)
    requires NoRepeats(p.assets)
    ensures Published(assets, p, deliveryMs, latest, OfferFrom(latest, Updates(assets, p, deliveryMs, |p.assets|)))
  {
    hide OfferFrom, Updates, EntryFrom, SameAt;
    var after := OfferFrom(latest, Updates(assets, p, deliveryMs, |p.assets|));
    if Injective(assets) {
      forall i | 0 <= i < |p.assets| && p.assets[i].assetId in assets
        ensures EntryFrom(latest, after, assets[p.assets[i].assetId], p, deliveryMs, p.assets[i].value)
      {
        NamedEntry(assets, p, deliveryMs, latest, i);
      }
    }
    forall f | forall i :: 0 <= i < |p.assets| && p.assets[i].assetId in assets ==> assets[p.assets[i].assetId] != f
      ensures SameAt(after, latest, f)
    {
      OtherEntry(assets, p, deliveryMs, latest, f);
    }
  }

  class Worker {
    const cache: FeedCache
    const assets: Assets
    const taxonomy: nat
    const maxAgeSec: U64
    var published: nat

    constructor (cache: FeedCache, assets: Assets, taxonomy: nat, maxAgeSec: U64)
      ensures this.cache == cache && this.assets == assets && this.taxonomy == taxonomy
      ensures this.maxAgeSec == maxAgeSec && published == 0
    {
      this.cache, this.assets, this.taxonomy, this.maxAgeSec, published := cache, assets, taxonomy, maxAgeSec, 0;
    }

    /** Offers every subscribed value of the payload, in order. */
    method PublishBatch(p: FastPayload, deliveryMs: nat) returns (count: nat)
      modifies cache
      ensures cache.latest == OfferFrom(old(cache.latest), Updates(assets, p, deliveryMs, |p.assets|))
      ensures count == cache.ingested - old(cache.ingested)
      ensures count == |cache.live| - |old(cache.live)| && old(cache.live) <= cache.live
      ensures cache.ingested + cache.dropped
              == old(cache.ingested + cache.dropped) + |Updates(assets, p, deliveryMs, |p.assets|)|
      ensures count <= |Updates(assets, p, deliveryMs, |p.assets|)|
      ensures forall k :: |old(cache.live)| <= k < |cache.live| ==>
                cache.live[k].Price? && cache.live[k].payload == p.raw && cache.live[k].timeMs == p.timestampNs / 1_000_000
    {
      count := 0;
      for i := 0 to |p.assets|
        invariant cache.latest == OfferFrom(old(cache.latest), Updates(assets, p, deliveryMs, i))
        invariant count == cache.ingested - old(cache.ingested)
        invariant count == |cache.live| - |old(cache.live)| && old(cache.live) <= cache.live
        invariant cache.ingested + cache.dropped
                  == old(cache.ingested + cache.dropped) + |Updates(assets, p, deliveryMs, i)|
        invariant count <= |Updates(assets, p, deliveryMs, i)|
        invariant forall k :: |old(cache.live)| <= k < |cache.live| ==>
                    cache.live[k].Price? && cache.live[k].payload == p.raw && cache.live[k].timeMs == p.timestampNs / 1_000_000
      {
        var v := p.assets[i];
        if v.assetId !in assets {
          continue;
        }
        OfferLast(old(cache.latest), Updates(assets, p, deliveryMs, i), ToUpdate(assets, p, deliveryMs, v));
        var inserted := cache.Insert(ToUpdate(assets, p, deliveryMs, v));
        count := count + if inserted then 1 else 0;
      }
    }

    /** One message. A message that does not decode counts every subscribed asset as dropped; one
        that decodes, verified or not, is counted once for each distinct subscribed asset it names,
        as ingested or as dropped. A verified one leaves every named feed exactly as a single offer
        would, and all other feeds alone. */
    method CachePayload(text: string, nowNs: U64)
      modifies this, cache
      ensures cache.ingested >= old(cache.ingested) && cache.dropped >= old(cache.dropped)
      ensures published - old(published) == cache.ingested - old(cache.ingested) <= |assets|
      ensures !WellFormed(text) ==>
                && cache.ingested + cache.dropped == old(cache.ingested + cache.dropped) + |assets|
                && cache.latest == old(cache.latest)
      ensures forall p :: Decodes(text, p) ==>
                && cache.ingested + cache.dropped == old(cache.ingested + cache.dropped) + |Named(assets, p.assets)|
                && (!Passes(p, nowNs) ==> cache.latest == old(cache.latest) && cache.ingested == old(cache.ingested))
                && (Passes(p, nowNs) ==> Published(assets, p, nowNs / 1_000_000, old(cache.latest), cache.latest))
    {
      hide FromHex, ToHex, LowerHex, AllHex, Encode, ValidAssets, Unprefixed, Updates, OfferFrom, Published;
      var deliveryMs := nowNs / NANOS_PER_MILLISECOND;
      var decoded := FromText(text);
      if decoded.Err? {
        cache.RecordDropped(|assets|);
        return;
      }
      var p := decoded.payload;
      forall q | Decodes(text, q) ensures q == p { DecodesUnique(text, p, q); }
      SubsetSize(Named(assets, p.assets), assets.Keys);
      var verdict := Verify(p, taxonomy, nowNs, maxAgeSec);
      if verdict != Verified {
        var subscribed := set v | v in p.assets && v.assetId in assets :: v.assetId;
        cache.RecordDropped(|subscribed|);
        return;
      }
      assert p.assets[..|p.assets|] == p.assets;
      CountUpdates(assets, p, deliveryMs, |p.assets|);
      PublishedIs(assets, p, deliveryMs, cache.latest);
      var count := PublishBatch(p, deliveryMs);
      published := published + count;
    }

    ghost predicate Passes(p: FastPayload, nowNs: U64) {
      && p.taxonomy == taxonomy && NoRepeats(p.assets)
      && p.timestampNs <= nowNs + 6_000_000_000
      && nowNs - p.timestampNs <= maxAgeSec * 1_000_000_000
    }
  }

  predicate WellFormed(text: string) {
    && IsHexBytes(Unprefixed(text))
    && var bytes := FromHex(Unprefixed(text)); |bytes| > ASSETS_OFFSET && (|bytes| - ASSETS_OFFSET) % ASSET_BYTES == 0
  }

  /** p is what the text encodes. */
  ghost predicate Decodes(text: string, p: FastPayload) {
    && WellFormed(text) && p.raw == FromHex(Unprefixed(text)) && ValidFields(p.taxonomy, p.timestampNs, p.assets)
    && Encode(p.raw[..SIGNATURE_BYTES], p.taxonomy, p.timestampNs, p.assets) == p.raw
  }

  lemma DecodesUnique(text: string, p: FastPayload, q: FastPayload)
    requires Decodes(text, p) && Decodes(text, q)
    ensures p == q
  {
    var s := p.raw[..SIGNATURE_BYTES];
    EncodeInjective(s, p.taxonomy, p.timestampNs, p.assets, s, q.taxonomy, q.timestampNs, q.assets);
  }
}
