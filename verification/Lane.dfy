/** One indexer lane: the worklist that splits oversized block ranges, the stored checkpoint with
    its legacy fallback, the overlap re-scan, and the backfill and polling loops around them.

    An attempt at a range ends in one of the outcomes below, chosen by the outside world. A crash
    leaves the database as a thrown error does, so `Throws` stands for both.
 */
module Lane {
  import opened Wrappers
  import opened Ranges
  import opened Rounds
  import Settlement

  /** A value of the meta table, by what Number() makes of it. */
  datatype Stored = Blank | NotFinite | Finite(value: real)

  datatype Outcome =
    | Done             // logs processed and checkpoint stored
    | TooLarge         // an error naming the response size
    | Throws
    | ThrowsAfterDone  // the checkpoint was stored, but the call reported an error

  datatype Attempt = Attempt(lo: nat, hi: nat, level: real)

  predicate WholeBlock(v: real) {
    v >= 0.0 && v == v.Floor as real
  }

  function MaxReal(a: real, b: real): real {
    if a < b then b else a
  }

  /** Splitting a range of n blocks leaves two whose measures add up to less. */
  function Measure(queue: seq<Range>): nat {
    if queue == [] then 0
    else
      var Range(lo, hi) := queue[0];
      (if lo <= hi then 2 * (hi - lo) + 1 else 0) + Measure(queue[1..])
  }

  /** Splitting the first range keeps the tiling and lowers the measure. */
  lemma Split(queue: seq<Range>, mid: nat, to: nat)
    requires queue != [] && Tiles(queue, queue[0].lo, to) && queue[0].lo <= mid < queue[0].hi
    ensures var Range(lo, hi) := queue[0];
            var split := [Range(lo, mid)] + ([Range(mid + 1, hi)] + queue[1..]);
            Tiles(split, lo, to) && Measure(split) < Measure(queue)
  {
    var Range(lo, hi) := queue[0];
    var right := [Range(mid + 1, hi)] + queue[1..];
    assert right[1..] == queue[1..] && ([Range(lo, mid)] + right)[1..] == right;
    assert Tiles(right, mid + 1, to);
  }

  lemma WholeRange(from: nat, to: nat)
    requires from <= to
    ensures Tiles([Range(from, to)], from, to + 1) && Tiles([], from, from) && Blocks(from, from) == {}
  {
    assert Tiles([], to + 1, to + 1);
  }

  lemma FirstRange(queue: seq<Range>, from: nat, to: nat)
    requires queue != [] && Tiles(queue, from, to)
    ensures queue[0].lo == from && from <= queue[0].hi && queue[0].hi + 1 <= to
    ensures Tiles(queue[1..], queue[0].hi + 1, to) && Measure(queue[1..]) < Measure(queue)
  {
  }

  lemma NoRanges(from: nat, to: nat)
    ensures Tiles([], from, to) ==> from == to
  {
  }

  lemma BlocksJoin(from: nat, start: nat, end: nat)
    requires from <= start <= end
    ensures Blocks(from, start) + Blocks(start, end + 1) == Blocks(from, end + 1)
  {
  }

  /** What was completed since `before` follows on from `from` up to, and without, `to`. */
  ghost predicate ScannedTo(before: seq<Range>, after: seq<Range>, from: int, to: int) {
    before <= after && from >= 0 && to >= from && Tiles(after[|before|..], from, to)
  }

  /** A scan from `from` to `latest` completed a prefix of it, on success all of it. */
  ghost predicate Scanned(before: seq<Range>, after: seq<Range>, from: int, latest: nat, ok: bool) {
    exists to :: ScannedTo(before, after, from, to) && (to <= latest + 1 || to == from)
                 && (ok ==> to == if from <= latest then latest + 1 else from)
  }

  lemma ScannedNone(before: seq<Range>, from: nat, latest: nat)
    ensures ScannedTo(before, before, from, from) && Scanned(before, before, from, latest, false)
  {
    TilesNone(from);
    assert before[|before|..] == [];
    assert ScannedTo(before, before, from, from);
  }

  lemma ScannedSome(before: seq<Range>, after: seq<Range>, from: nat, to: nat, latest: nat, ok: bool)
    requires ScannedTo(before, after, from, to) && (to <= latest + 1 || to == from)
    requires ok ==> to == if from <= latest then latest + 1 else from
    ensures Scanned(before, after, from, latest, ok)
  {
  }

  lemma ScannedNext(before: seq<Range>, after: seq<Range>, leaves: seq<Range>, from: nat, mid: nat, to: nat)
    requires ScannedTo(before, after, from, mid) && Tiles(leaves, mid, to) && mid <= to
    ensures ScannedTo(before, after + leaves, from, to)
  {
    TilesAppend(after[|before|..], leaves, from, mid, to);
    assert (after + leaves)[|before|..] == after[|before|..] + leaves;
  }

  class IndexerLane {
    const startBlock: nat
    const overlap: nat
    const batchSize: nat
    const confirmations: nat
    const legacy: Option<Stored>  // None also when the lane has no legacy key
    const world: (nat, nat, nat) -> Outcome

    var current: Option<Stored>
    var calls: nat
    ghost var attempts: seq<Attempt>
    ghost var fetched: set<int>
    ghost var completed: seq<Range>  // ranges whose logs were processed, in order
    ghost var errors: nat            // attempts that ended in an error other than a range to split
    ghost const initial: real
    ghost var highest: nat  // highest confirmed block this lane was ever asked to reach

    constructor (startBlock: nat, overlap: nat, batchSize: nat, confirmations: nat,
                 current: Option<Stored>, legacy: Option<Stored>, world: (nat, nat, nat) -> Outcome)
      requires batchSize >= 1
      ensures Valid() && this.startBlock == startBlock && this.overlap == overlap && this.confirmations == confirmations
      ensures this.batchSize == batchSize && this.current == current && this.legacy == legacy && this.world == world
      ensures fetched == {} && completed == [] && attempts == [] && calls == 0 && errors == 0 && highest == 0 && initial == Level()
    {
      this.startBlock, this.overlap, this.batchSize, this.confirmations := startBlock, overlap, batchSize, confirmations;
      this.current, this.legacy, this.world, calls := current, legacy, world, 0;
      attempts, fetched, completed, errors, highest := [], {}, [], 0, 0;
      initial := LevelOf(if current.Some? && current.value != Blank then current else legacy);
    }

    /** The lane's own value unless it is missing or empty, else the legacy value. */
    function Effective(): Option<Stored>
      reads this`current
    {
      if current.Some? && current.value != Blank then current else legacy
    }

    /** A stored value that is no block number. */
    static predicate NoBlock(v: Option<Stored>) {
      v.Some? && v.value != Blank
      && (v.value == NotFinite || v.value.value < 0.0 || v.value.value != v.value.value.Floor as real)
    }

    static function LevelOf(v: Option<Stored>): real {
      if v.Some? && v.value.Finite? then v.value.value else -1.0
    }

    /** The checkpoint as a number, below every block when there is none. */
    function Level(): real
      reads this`current
    {
      LevelOf(Effective())
    }

    /** Every block from the start block up to the checkpoint that this lane answers for has been
        fetched, no attempt ever left a gap above the checkpoint, and the checkpoint is within
        what was found at first and what the lane was asked to reach. */
    ghost predicate Valid()
      reads this`current, this`attempts, this`fetched, this`highest
    {
      && batchSize >= 1
      && initial <= Level() <= MaxReal(initial, highest as real)
      && (forall b: int :: startBlock <= b && initial < b as real <= Level() ==> b in fetched)
      && (forall i :: 0 <= i < |attempts| ==> NoGap(attempts[i]) && attempts[i].hi <= highest)
    }

    ghost predicate NoGap(a: Attempt) {
      startBlock <= a.lo <= a.hi && (a.lo == startBlock || a.lo as real <= a.level + 1.0)
    }

    /** Every range is answered and processed at the first attempt. */
    ghost predicate AllDone() {
      forall n, lo, hi :: world(n, lo, hi) == Done
    }

    method SetCheckpoint(end: nat)
      modifies this`current
      ensures Level() == MaxReal(old(Level()), end as real) == (if old(Level()) < end as real then end as real else old(Level()))
      ensures current.Some? && current.value == Finite(Level())
    {
      var checkpoint := Effective();
      var next := end as real;
      if checkpoint.Some? && checkpoint.value != NotFinite {
        var parsed := if checkpoint.value == Blank then 0.0 else checkpoint.value.value;
        next := MaxReal(parsed, end as real);
      }
      current := Some(Finite(next));
    }

    /** A range whose logs are processed moves the checkpoint to its end, or leaves it if it is
        already past. */
    method Complete(lo: nat, hi: nat)
      requires Valid() && startBlock <= lo <= hi <= highest && (lo == startBlock || lo as real <= Level() + 1.0)
      modifies this`current, this`fetched, this`completed
      ensures Valid() && Level() == MaxReal(old(Level()), hi as real)
      ensures fetched == old(fetched) + Blocks(lo, hi + 1) && completed == old(completed) + [Range(lo, hi)]
    {
      SetCheckpoint(hi);
      fetched := fetched + Blocks(lo, hi + 1);
      completed := completed + [Range(lo, hi)];
    }

    ghost method Note(start: nat, end: nat)
      requires Valid() && startBlock <= start <= end <= highest && (start == startBlock || start as real <= Level() + 1.0)
      modifies this`attempts
      ensures Valid() && attempts == old(attempts) + [Attempt(start, end, Level())] && Level() == old(Level())
    {
      attempts := attempts + [Attempt(start, end, Level())];
    }

    ghost method CountError(outcome: Outcome)
      requires Valid()
      modifies this`errors
      ensures errors == old(errors) + (if outcome == Throws || outcome == ThrowsAfterDone then 1 else 0)
      ensures Valid() && Level() == old(Level())
    {
      if outcome == Throws || outcome == ThrowsAfterDone {
        errors := errors + 1;
      }
    }

    /** One range: fetched whole, or page by page if it is a single block that is too large. */
    method Try(start: nat, end: nat) returns (outcome: Outcome)
      requires Valid() && startBlock <= start <= end <= highest && (start == startBlock || start as real <= Level() + 1.0)
      modifies this`current, this`calls, this`attempts, this`fetched, this`completed, this`errors
      ensures Valid() && attempts == old(attempts) + [Attempt(start, end, old(Level()))]
      ensures if world(old(calls), start, end) == TooLarge && start == end
              then calls == old(calls) + 2
                   && outcome == (if world(old(calls) + 1, start, end) == TooLarge then Throws else world(old(calls) + 1, start, end))
              else calls == old(calls) + 1 && outcome == world(old(calls), start, end)
      ensures errors == old(errors) + if outcome == Throws || outcome == ThrowsAfterDone then 1 else 0
      ensures outcome == Done || outcome == ThrowsAfterDone ==>
                && Level() == MaxReal(old(Level()), end as real) && fetched == old(fetched) + Blocks(start, end + 1)
                && completed == old(completed) + [Range(start, end)]
      ensures outcome == Throws || outcome == TooLarge ==>
                Level() == old(Level()) && fetched == old(fetched) && completed == old(completed)
    {
      hide Valid, Level, Blocks;
      Note(start, end);
      outcome := world(calls, start, end);
      calls := calls + 1;
      if outcome == TooLarge && start == end {
        outcome := world(calls, start, end);
        calls := calls + 1;
        if outcome == TooLarge {
          outcome := Throws;
        }
      }
      CountError(outcome);
      if outcome == Done || outcome == ThrowsAfterDone {
        Complete(start, end);
      }
    }

    /** The worklist. Whatever the world answers, it ends; the ranges it completes tile
        [from, stop), all of [from, to] if it returns normally; the checkpoint stands at the end
        of the last of them unless it was already further. */
    method ProcessRange(from: nat, to: nat) returns (ok: bool, ghost leaves: seq<Range>, ghost stop: nat)
      requires Valid() && startBlock <= from <= to <= highest && (from == startBlock || from as real <= Level() + 1.0)
      modifies this`current, this`calls, this`attempts, this`fetched, this`completed, this`errors
      ensures Valid()
      ensures Tiles(leaves, from, stop) && from <= stop <= to + 1 && (ok ==> stop == to + 1)
      ensures Level() == if stop == from then old(Level()) else MaxReal(old(Level()), (stop - 1) as real)
      ensures fetched == old(fetched) + Blocks(from, stop) && completed == old(completed) + leaves
      ensures old(attempts) <= attempts && errors == old(errors) + (if ok then 0 else 1)
      ensures AllDone() ==> leaves == [Range(from, to)]
    {
      hide Valid, Level, Tiles, Measure, Blocks;
      var queue: seq<Range> := [Range(from, to)];
      leaves, stop := [], from;
      WholeRange(from, to);
      while queue != []
        invariant Valid()
        invariant Tiles(leaves, from, stop) && from <= stop <= to + 1 && Tiles(queue, stop, to + 1)
        invariant Level() == if stop == from then old(Level()) else MaxReal(old(Level()), (stop - 1) as real)
        invariant fetched == old(fetched) + Blocks(from, stop) && completed == old(completed) + leaves
        invariant old(attempts) <= attempts && errors == old(errors)
        invariant AllDone() ==> if stop == from then queue == [Range(from, to)] && leaves == []
                                else queue == [] && leaves == [Range(from, to)]
        decreases Measure(queue)
      {
        var Range(start, end) := queue[0];
        ghost var whole := queue;
        FirstRange(queue, stop, to + 1);
        queue := queue[1..];
        var outcome := Try(start, end);
        if outcome == TooLarge {
          var mid := (start + end) / 2;
          Split(whole, mid, to + 1);
          queue := [Range(mid + 1, end)] + queue;
          queue := [Range(start, mid)] + queue;
          continue;
        }
        if outcome == Done || outcome == ThrowsAfterDone {
          TilesLast(leaves, from, start, end);
          BlocksJoin(from, start, end);
          leaves, stop := leaves + [Range(start, end)], end + 1;
        }
        if outcome != Done {
          return false, leaves, stop;
        }
      }
      NoRanges(stop, to + 1);
      return true, leaves, stop;
    }

    /** Where a scan starts: at the start block without a checkpoint, else the overlap before the
        block after it. */
    ghost function ScanFrom(): int
      reads this`current
    {
      if Level() < 0.0 then startBlock else Settlement.Max(startBlock, Level().Floor + 1 - overlap)
    }

    /** Where the next scan starts, or nothing if the stored value is not a block number. */
    method NextStart() returns (r: Option<nat>)
      ensures r.None? <==> Effective().Some? && Effective().value != Blank
                           && (|| Effective().value == NotFinite
                               || Effective().value.value < 0.0
                               || Effective().value.value != Effective().value.value.Floor as real)
      ensures Effective() == (if current.None? || current.value == Blank then legacy else current)
      ensures r.None? <==> NoBlock(Effective())
      ensures r.Some? && Level() < 0.0 ==> r.value == startBlock
      ensures r.Some? && Level() >= 0.0 ==>
                r.value == Settlement.Max(startBlock, Level().Floor + 1 - overlap) && WholeBlock(Level())
      ensures r.Some? ==> r.value == ScanFrom() && (r.value == startBlock || r.value as real <= Level() + 1.0)
    {
      var checkpoint := Effective();
      if checkpoint.None? || checkpoint.value == Blank {
        return Some(startBlock);
      }
      if checkpoint.value == NotFinite || !WholeBlock(checkpoint.value.value) {
        return None;
      }
      return Some(Settlement.Max(startBlock, checkpoint.value.value.Floor + 1 - overlap));
    }

    method Aim(latest: nat)
      requires Valid()
      modifies this`highest
      ensures Valid() && highest == Settlement.Max(old(highest), latest) && batchSize >= 1
      ensures Level() == old(Level()) && ScanFrom() == old(ScanFrom()) && Effective() == old(Effective())
    {
      highest := Settlement.Max(highest, latest);
    }

    /** Scans up to a confirmed block, a batch at a time: the ranges completed by the scan follow each
        other from where it starts, the overlap included, and on success to the confirmed block. */
    method ProcessUntil(latest: nat) returns (ok: bool)
      requires Valid()
      modifies this
      ensures Valid() && highest == Settlement.Max(old(highest), latest)
      ensures old(Level()) <= Level() <= MaxReal(old(Level()), latest as real)
      ensures ok && startBlock <= latest ==> Level() >= latest as real
      ensures old(fetched) <= fetched && old(attempts) <= attempts
      ensures Scanned(old(completed), completed, old(ScanFrom()), latest, ok)
      ensures ok ==> errors == old(errors)
      ensures !ok ==> errors == old(errors) + 1 || (NoBlock(old(Effective())) && attempts == old(attempts) && errors == old(errors))
      ensures NoBlock(old(Effective())) ==> !ok && current == old(current)
      ensures AllDone() ==>
                forall i :: |old(completed)| <= i < |completed| - 1 ==> completed[i].hi - completed[i].lo + 1 == batchSize
      ensures AllDone() ==>
                forall i :: |old(completed)| <= i < |completed| ==> completed[i].hi - completed[i].lo + 1 <= batchSize
    {
      hide Valid, Level, Scanned, ScannedTo;
      Aim(latest);
      ghost var from := ScanFrom();
      ScannedNone(completed, from, latest);
      var next := NextStart();
      if next.None? {
        return false;
      }
      var currentBlock := next.value;
      while currentBlock <= latest
        invariant Valid() && highest == Settlement.Max(old(highest), latest)
        invariant startBlock <= currentBlock && (currentBlock == startBlock || currentBlock as real <= Level() + 1.0)
        invariant old(Level()) <= Level() <= MaxReal(old(Level()), latest as real)
        invariant old(fetched) <= fetched && old(attempts) <= attempts
        invariant ScannedTo(old(completed), completed, from, currentBlock)
        invariant if from <= latest then currentBlock <= latest + 1 else currentBlock == from
        invariant currentBlock != from ==> Level() >= (currentBlock - 1) as real
        invariant errors == old(errors) && old(completed) <= completed
        invariant AllDone() ==>
                    forall i :: |old(completed)| <= i < |completed| ==>
                      completed[i].hi - completed[i].lo + 1 <= batchSize
                      && (i < |completed| - 1 || currentBlock <= latest ==> completed[i].hi - completed[i].lo + 1 == batchSize)
      {
        var toBlock: int := currentBlock + batchSize - 1;
        if latest < toBlock { toBlock := latest; }
        var done;
        ghost var leaves, stop;
        ghost var before := completed;
        done, leaves, stop := ProcessRange(currentBlock, toBlock);
        ScannedNext(old(completed), before, leaves, from, currentBlock, stop);
        if !done {
          ScannedSome(old(completed), completed, from, stop, latest, false);
          return false;
        }
        currentBlock := toBlock + 1;
      }
      ScannedSome(old(completed), completed, from, currentBlock, latest, true);
      return true;
    }

    /** One poll: the head as the provider reports it, less the confirmations. */
    method Poll(head: nat) returns (ok: bool)
      requires Valid()
      modifies this
      ensures Valid() && highest == Settlement.Max(old(highest), Settlement.Max(0, head - confirmations))
      ensures old(Level()) <= Level() <= MaxReal(old(Level()), Settlement.Max(0, head - confirmations) as real)
      ensures ok && startBlock <= Settlement.Max(0, head - confirmations) ==> Level() >= Settlement.Max(0, head - confirmations) as real
      ensures old(fetched) <= fetched && old(attempts) <= attempts
      ensures Scanned(old(completed), completed, old(ScanFrom()), Settlement.Max(0, head - confirmations), ok)
      ensures old(errors) <= errors
      ensures if ok then errors == old(errors) else errors == old(errors) + 1 || NoBlock(Effective())
    {
      var latest := Settlement.Max(0, head - confirmations);
      ok := ProcessUntil(latest);
    }
  }

  /** Every attempt of a lane is one the settlement state machine admits, with the lane's
      checkpoint standing for that machine's: it leaves no gap above the checkpoint and does not
      pass the highest block the lane was told is confirmed. */
  lemma AttemptsAdmitted(lane: IndexerLane, i: nat)
    requires lane.Valid() && i < |lane.attempts|
    ensures var a := lane.attempts[i];
            Settlement.RangeAllowed(lane.startBlock, a.level.Floor, a.lo, a.hi) && a.hi <= lane.highest
  {
    assert lane.NoGap(lane.attempts[i]);
  }

  // ----- the lanes of a process

  /** What is said about a lane over a whole pass. */
  datatype View = View(startBlock: nat, level: real, errors: nat, fetched: set<int>, attempts: seq<Attempt>, highest: nat, noBlock: bool)

  ghost function ViewOf(lane: IndexerLane): View
    reads lane
  {
    View(lane.startBlock, lane.Level(), lane.errors, lane.fetched, lane.attempts, lane.highest, IndexerLane.NoBlock(lane.Effective()))
  }

  ghost function Views(lanes: seq<IndexerLane>): (views: seq<View>)
    reads lanes
    ensures |views| == |lanes| && forall i :: 0 <= i < |lanes| ==> views[i] == ViewOf(lanes[i])
  {
    seq(|lanes|, i requires 0 <= i < |lanes| reads lanes => ViewOf(lanes[i]))
  }

  ghost predicate Lanes(lanes: seq<IndexerLane>, confirmations: nat)
    reads lanes
  {
    && (forall i, j :: 0 <= i < j < |lanes| ==> lanes[i] != lanes[j])
    && (forall i :: 0 <= i < |lanes| ==> lanes[i].Valid() && lanes[i].confirmations == confirmations)
  }

  /** No checkpoint went back and nothing that was fetched or tried is forgotten. */
  ghost predicate Grew(v: View, w: View) {
    v.startBlock == w.startBlock && v.level <= w.level && v.errors <= w.errors && v.fetched <= w.fetched && v.attempts <= w.attempts
  }

  ghost predicate AllGrew(vs: seq<View>, ws: seq<View>) {
    |vs| == |ws| && forall i :: 0 <= i < |vs| ==> Grew(vs[i], ws[i])
  }

  ghost predicate AtTarget(w: View, target: nat) {
    w.startBlock <= target ==> w.level >= target as real
  }

  /** Every lane that starts at or before the target has reached it. */
  ghost predicate Reached(ws: seq<View>, target: nat) {
    forall i :: 0 <= i < |ws| ==> AtTarget(ws[i], target)
  }

  /** The lane met an error, or its stored checkpoint is no block number. */
  ghost predicate Failed(v: View, w: View) {
    w.errors > v.errors || w.noBlock
  }

  ghost predicate SomeFailed(vs: seq<View>, ws: seq<View>) {
    |vs| == |ws| && exists i :: 0 <= i < |vs| && Failed(vs[i], ws[i])
  }

  /** What a lane was asked to reach is what it was before or one of the targets. */
  ghost predicate AskedFor(v: View, w: View, targets: seq<nat>) {
    v.highest <= w.highest && (w.highest == v.highest || w.highest in targets)
  }

  ghost predicate AllAskedFor(vs: seq<View>, ws: seq<View>, targets: seq<nat>) {
    |vs| == |ws| && forall i :: 0 <= i < |vs| ==> AskedFor(vs[i], ws[i], targets)
  }

  lemma GrewOn(us: seq<View>, vs: seq<View>, ws: seq<View>)
    requires AllGrew(us, vs) && AllGrew(vs, ws)
    ensures AllGrew(us, ws) && (SomeFailed(vs, ws) ==> SomeFailed(us, ws))
  {
    if SomeFailed(vs, ws) {
      var i :| 0 <= i < |vs| && Failed(vs[i], ws[i]);
      assert Grew(us[i], vs[i]) && Failed(us[i], ws[i]);
    }
  }

  lemma ReachedOn(vs: seq<View>, ws: seq<View>, target: nat)
    requires Reached(vs, target) && AllGrew(vs, ws)
    ensures Reached(ws, target)
  {
    forall i | 0 <= i < |ws| ensures AtTarget(ws[i], target) {
      assert AtTarget(vs[i], target) && Grew(vs[i], ws[i]);
    }
  }

  lemma AskedOn(us: seq<View>, vs: seq<View>, ws: seq<View>, targets: seq<nat>, more: seq<nat>)
    requires AllAskedFor(us, vs, targets) && AllAskedFor(vs, ws, more)
    ensures AllAskedFor(us, ws, targets + more)
  {
    forall i | 0 <= i < |us| ensures AskedFor(us[i], ws[i], targets + more) {
      assert AskedFor(us[i], vs[i], targets) && AskedFor(vs[i], ws[i], more);
    }
  }

  function Target(confirmations: nat, head: nat): nat {
    Settlement.Max(0, head - confirmations)
  }

  /** One lane after a poll that it took part in. */
  ghost predicate Polled(v: View, w: View, target: nat, ok: bool) {
    && Grew(v, w) && w.highest == Settlement.Max(v.highest, target)
    && (if ok then AtTarget(w, target) else Failed(v, w))
  }

  /** A pass: the lanes before the first that throws all reach the target, those after it are left
      alone. */
  ghost predicate Passed(vs: seq<View>, ws: seq<View>, target: nat, ok: bool, tried: nat) {
    && |vs| == |ws| && tried <= |vs| && (if ok then tried == |vs| else tried > 0)
    && (forall i :: 0 <= i < tried ==> Polled(vs[i], ws[i], target, ok || i < tried - 1))
    && (forall i :: tried <= i < |vs| ==> ws[i] == vs[i])
  }

  lemma PassedMeans(vs: seq<View>, ws: seq<View>, target: nat, ok: bool, tried: nat)
    requires Passed(vs, ws, target, ok, tried)
    ensures AllGrew(vs, ws) && AllAskedFor(vs, ws, [target])
    ensures if ok then Reached(ws, target) else SomeFailed(vs, ws)
  {
    forall i | 0 <= i < |vs| ensures Grew(vs[i], ws[i]) && AskedFor(vs[i], ws[i], [target]) {
      if i < tried { assert Polled(vs[i], ws[i], target, ok || i < tried - 1); }
    }
    if ok {
      forall i | 0 <= i < |ws| ensures AtTarget(ws[i], target) { assert Polled(vs[i], ws[i], target, true); }
    } else {
      assert Polled(vs[tried - 1], ws[tried - 1], target, false);
    }
  }

  method PollLane(lane: IndexerLane, head: nat) returns (ok: bool)
    requires lane.Valid()
    modifies lane
    ensures lane.Valid() && Polled(old(ViewOf(lane)), ViewOf(lane), Target(lane.confirmations, head), ok)
  {
    ok := lane.Poll(head);
  }

  /** One pass over the lanes with one head. */
  method PollAll(lanes: seq<IndexerLane>, confirmations: nat, head: nat) returns (ok: bool, tried: nat)
    requires Lanes(lanes, confirmations)
    modifies lanes
    ensures Lanes(lanes, confirmations) && Passed(old(Views(lanes)), Views(lanes), Target(confirmations, head), ok, tried)
  {
    hide IndexerLane.Valid, ViewOf, Polled, Target;
    ok, tried := true, 0;
    while ok && tried < |lanes|
      invariant Lanes(lanes, confirmations) && tried <= |lanes| && (!ok ==> tried > 0)
      invariant forall i :: 0 <= i < tried ==>
                              Polled(old(ViewOf(lanes[i])), ViewOf(lanes[i]), Target(confirmations, head), ok || i < tried - 1)
      invariant forall i :: tried <= i < |lanes| ==> ViewOf(lanes[i]) == old(ViewOf(lanes[i]))
      decreases ok, |lanes| - tried
    {
      ok := PollLane(lanes[tried], head);
      tried := tried + 1;
    }
  }

  function Targets(confirmations: nat, heads: seq<nat>): seq<nat> {
    seq(|heads|, i requires 0 <= i < |heads| => Target(confirmations, heads[i]))
  }

  /** Polls, one after the other; one that throws is forgotten. Whether the last one went well is
      returned. */
  method Polls(lanes: seq<IndexerLane>, confirmations: nat, heads: seq<nat>) returns (ok: bool)
    requires Lanes(lanes, confirmations)
    modifies lanes
    ensures Lanes(lanes, confirmations) && AllGrew(old(Views(lanes)), Views(lanes))
    ensures AllAskedFor(old(Views(lanes)), Views(lanes), Targets(confirmations, heads))
    ensures ok && heads != [] ==> Reached(Views(lanes), Target(confirmations, heads[|heads| - 1]))
    ensures !ok ==> SomeFailed(old(Views(lanes)), Views(lanes))
  {
    hide Lanes, Views, AllGrew, AllAskedFor, Reached, SomeFailed, Passed, Target;
    ghost var start := Views(lanes);
    NothingYet(start);
    assert Targets(confirmations, heads[..0]) == [];
    ok := true;
    for i := 0 to |heads|
      invariant Lanes(lanes, confirmations) && AllGrew(start, Views(lanes))
      invariant AllAskedFor(start, Views(lanes), Targets(confirmations, heads[..i]))
      invariant ok && i > 0 ==> Reached(Views(lanes), Target(confirmations, heads[i - 1]))
      invariant !ok ==> SomeFailed(start, Views(lanes))
    {
      ghost var before := Views(lanes);
      var tried;
      ok, tried := PollAll(lanes, confirmations, heads[i]);
      PassedMeans(before, Views(lanes), Target(confirmations, heads[i]), ok, tried);
      GrewOn(start, before, Views(lanes));
      AskedOn(start, before, Views(lanes), Targets(confirmations, heads[..i]), [Target(confirmations, heads[i])]);
      assert Targets(confirmations, heads[..i + 1]) == Targets(confirmations, heads[..i]) + [Target(confirmations, heads[i])];
    }
    assert heads[..|heads|] == heads;
  }

  lemma NothingYet(vs: seq<View>)
    ensures AllGrew(vs, vs) && AllAskedFor(vs, vs, [])
  {
  }

  /** A process lifetime: a backfill, which ends it if it throws and otherwise brings every lane to the
      confirmed block, then polls. Any sequence of restarts is a sequence of such lifetimes. */
  method Watch(lanes: seq<IndexerLane>, confirmations: nat, head: nat, heads: seq<nat>) returns (backfilled: bool, ok: bool)
    requires Lanes(lanes, confirmations)
    modifies lanes
    ensures Lanes(lanes, confirmations) && AllGrew(old(Views(lanes)), Views(lanes))
    ensures AllAskedFor(old(Views(lanes)), Views(lanes), Targets(confirmations, if backfilled then [head] + heads else [head]))
    ensures backfilled ==> Reached(Views(lanes), Target(confirmations, head))
    ensures ok && heads != [] ==> Reached(Views(lanes), Target(confirmations, heads[|heads| - 1]))
    ensures !ok ==> SomeFailed(old(Views(lanes)), Views(lanes))
    ensures ok ==> backfilled
  {
    hide Lanes, Views, AllGrew, AllAskedFor, Reached, SomeFailed, Passed, Target;
    ghost var start := Views(lanes);
    var tried;
    backfilled, tried := PollAll(lanes, confirmations, head);
    ghost var filled := Views(lanes);
    PassedMeans(start, filled, Target(confirmations, head), backfilled, tried);
    assert Targets(confirmations, [head]) == [Target(confirmations, head)];
    ok := backfilled;
    if backfilled {
      ok := Polls(lanes, confirmations, heads);
      GrewOn(start, filled, Views(lanes));
      ReachedOn(filled, Views(lanes), Target(confirmations, head));
      AskedOn(start, filled, Views(lanes), [Target(confirmations, head)], Targets(confirmations, heads));
      assert Targets(confirmations, [head] + heads) == [Target(confirmations, head)] + Targets(confirmations, heads);
    }
  }

  // ----- batch sizes

  /** The block a scan stands at after n batches without an error; a batch size need not be whole. */
  function Position(batch: real, start: real, latest: int, n: nat): real {
    if n == 0 then start
    else
      var at := Position(batch, start, latest, n - 1);
      if at > latest as real then at
      else if at + batch - 1.0 < latest as real then at + batch - 1.0 + 1.0
      else latest as real + 1.0
  }

  lemma {:induction false} PositionAfter(batch: real, start: real, latest: int, n: nat)
    requires start <= latest as real
    ensures batch <= 0.0 ==> Position(batch, start, latest, n) <= start
    ensures Position(batch, start, latest, n) <= latest as real ==>
              Position(batch, start, latest, n) == start + At(batch, n)
  {
    if n > 0 { PositionAfter(batch, start, latest, n - 1); }
  }

  /** The batch loop comes to an end exactly for positive batch sizes. */
  lemma BatchesEndIff(batch: real, start: real, latest: int)
    requires start <= latest as real
    ensures (exists n :: Position(batch, start, latest, n) > latest as real) <==> batch > 0.0
  {
    if batch > 0.0 {
      var gap := latest as real - start;
      var n := EnoughRounds(batch, gap.Floor + 1);
      assert At(batch, n) > gap;
      PositionAfter(batch, start, latest, n);
      assert Position(batch, start, latest, n) > latest as real;
    } else {
      forall n ensures Position(batch, start, latest, n) <= latest as real { PositionAfter(batch, start, latest, n); }
    }
  }
}
