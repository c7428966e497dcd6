/** Finding a mint by amount after a deposit: a binary search for block numbers by timestamp, a
    log scan that halves its span when the provider refuses a range, and the two passes over what
    the scan returns.
 */
module BlockSearch {
  import opened Wrappers
  import opened Ranges

  // ----- binary search

  /** Timestamps do not decrease up to the latest block. */
  ghost predicate Ascending(times: nat -> int, latest: nat) {
    forall i: nat, j: nat :: i <= j <= latest ==> times(i) <= times(j)
  }

  /** b is the first of the blocks from `least` to `latest` at or after the target. */
  ghost predicate FirstAtOrAfter(times: nat -> int, least: nat, latest: nat, target: int, b: nat) {
    least <= b <= latest && times(b) >= target && forall j: nat :: least <= j < b ==> times(j) < target
  }

  /** What the search promises, and exactly when it keeps the promise. */
  method FindBlockByTimestamp(times: nat -> int, latest: nat, target: int) returns (b: nat)
    ensures times(latest) <= target ==> b == latest
    ensures times(latest) > target && latest == 0 ==> b == 1
    ensures Ascending(times, latest) && times(latest) > target && latest >= 1 ==> FirstAtOrAfter(times, 1, latest, target, b)
    ensures Ascending(times, latest) ==>
              (FirstAtOrAfter(times, 0, latest, target, b) <==>
                 || (times(0) < target < times(latest))
                 || (times(latest) == target && (latest == 0 || times(latest - 1) < target)))
  {
    if times(latest) <= target {
      return latest;
    }
    var low, high := 1, latest;
    while low < high
      invariant 1 <= low && (latest >= 1 ==> low <= high <= latest) && (latest == 0 ==> low == 1 && high == 0)
      invariant Ascending(times, latest) ==> forall j: nat :: 1 <= j < low ==> times(j) < target
      invariant latest >= 1 ==> times(high) >= target
    {
      var mid := (low + high) / 2;
      if times(mid) < target {
        low := mid + 1;
      } else {
        high := mid;
      }
    }
    return low;
  }

  function TiedHead(b: nat): int {
    if b == 0 then 0 else 5
  }

  /** Two latest blocks at the target: the search returns the second of them. */
  method SearchMissesTie() returns (b: nat)
    ensures b == 2 && TiedHead(1) == 5 && !FirstAtOrAfter(TiedHead, 0, 2, 5, b)
  {
    b := FindBlockByTimestamp(TiedHead, 2, 5);
  }

  // ----- adaptive scan

  datatype Mint = Mint(block: nat, to: nat, id: nat, amount: nat)

  datatype Answer = Answered | TooLarge | Refused

  const LOG_CHUNK_BLOCKS := 10_000
  const MIN_SPLIT_SPAN := 50

  /** The mints of a range, as the provider returns them; all ids, or only the given ones. */
  function MintsIn(mints: seq<Mint>, lo: nat, hi: nat, ids: Option<set<nat>>): seq<Mint> {
    if mints == [] then []
    else
      var m, rest := mints[0], MintsIn(mints[1..], lo, hi, ids);
      if lo <= m.block <= hi && (ids.None? || m.id in ids.value) then [m] + rest else rest
  }

  lemma {:induction false} MintsMember(mints: seq<Mint>, lo: nat, hi: nat, ids: Option<set<nat>>, m: Mint)
    ensures m in MintsIn(mints, lo, hi, ids) <==> m in mints && lo <= m.block <= hi && (ids.None? || m.id in ids.value)
  {
    if mints != [] {
      MintsMember(mints[1..], lo, hi, ids, m);
      assert mints == [mints[0]] + mints[1..];
    }
  }

  lemma {:induction false} MintsSplit(mints: seq<Mint>, lo: nat, mid: nat, hi: nat, ids: Option<set<nat>>)
    requires lo <= mid < hi
    ensures multiset(MintsIn(mints, lo, hi, ids)) == multiset(MintsIn(mints, lo, mid, ids)) + multiset(MintsIn(mints, mid + 1, hi, ids))
  {
    if mints != [] {
      MintsSplit(mints[1..], lo, mid, hi, ids);
    }
  }

  lemma {:induction false} MintsNone(mints: seq<Mint>, lo: nat, hi: nat, ids: Option<set<nat>>)
    requires lo > hi
    ensures MintsIn(mints, lo, hi, ids) == []
  {
    if mints != [] { MintsNone(mints[1..], lo, hi, ids); }
  }

  /** The logs are the mints of [first, start), each once. */
  ghost predicate ScannedTo(mints: seq<Mint>, first: nat, start: nat, ids: Option<set<nat>>, logs: seq<Mint>) {
    first <= start && multiset(logs) == if start == first then multiset{} else multiset(MintsIn(mints, first, start - 1, ids))
  }

  lemma ScannedNone(mints: seq<Mint>, first: nat, ids: Option<set<nat>>)
    ensures ScannedTo(mints, first, first, ids, [])
  {
  }

  lemma ScannedNext(mints: seq<Mint>, first: nat, start: nat, end: nat, ids: Option<set<nat>>, logs: seq<Mint>)
    requires ScannedTo(mints, first, start, ids, logs) && start <= end
    ensures ScannedTo(mints, first, end + 1, ids, logs + MintsIn(mints, start, end, ids))
  {
    hide MintsIn;
    var more := MintsIn(mints, start, end, ids);
    assert multiset(logs + more) == multiset(logs) + multiset(more);
    if first < start { MintsSplit(mints, first, start - 1, end, ids); }
  }

  lemma ScannedAll(mints: seq<Mint>, first: nat, start: nat, last: nat, ids: Option<set<nat>>, logs: seq<Mint>)
    requires ScannedTo(mints, first, start, ids, logs) && start == if first <= last then last + 1 else first
    ensures multiset(logs) == multiset(MintsIn(mints, first, last, ids))
  {
    if first > last { MintsNone(mints, first, last, ids); }
  }

  function SpanEnd(start: nat, span: nat, last: nat): (end: nat)
    requires start <= last && span >= 1
    ensures start <= end <= last && end - start < span
    ensures end < last ==> end - start == span - 1
  {
    if start + span - 1 > last then last else start + span - 1
  }

  /** Each mint of the range is returned exactly once, from ranges that tile it, unless the
      provider refuses one outright or finds one of at most 50 blocks too large (that call is
      returned); a range is retried only with a smaller span, so the scan ends. */
  method ScanAdaptive(mints: seq<Mint>, first: nat, last: nat, ids: Option<set<nat>>, world: (nat, nat, nat) -> Answer)
    returns (ok: bool, logs: seq<Mint>, ranges: seq<Range>, at: (nat, nat, nat))
    ensures ok ==> multiset(logs) == multiset(MintsIn(mints, first, last, ids))
    ensures ok ==> Tiles(ranges, first, if first <= last then last + 1 else first)
    ensures ok ==> forall i :: 0 <= i < |ranges| ==> ranges[i].hi - ranges[i].lo < 10_000
    ensures ok && (forall call, lo, hi :: world(call, lo, hi) == Answered) ==>
              forall i :: 0 <= i < |ranges| - 1 ==> ranges[i].hi - ranges[i].lo == 9_999
    ensures !ok ==>
              && first <= at.1 <= at.2 <= last
              && (|| world(at.0, at.1, at.2) == Refused
                  || (world(at.0, at.1, at.2) == TooLarge && at.2 - at.1 < 50))
  {
    hide MintsIn, Tiles, ScannedTo, SpanEnd;
    logs, ranges, at := [], [], (0, first, first);
    ScannedNone(mints, first, ids);
    TilesNone(first);
    var start, span, calls := first, LOG_CHUNK_BLOCKS, 0;
    while start <= last
      invariant first <= start && (start == first || start <= last + 1) && 25 <= span <= 10_000
      invariant forall i :: 0 <= i < |ranges| ==> ranges[i].hi - ranges[i].lo < 10_000
      invariant (forall call, lo, hi :: world(call, lo, hi) == Answered) ==>
                  span == 10_000 && (forall i :: 0 <= i < |ranges| && start <= last ==> ranges[i].hi - ranges[i].lo == 9_999)
                  && forall i :: 0 <= i < |ranges| - 1 ==> ranges[i].hi - ranges[i].lo == 9_999
      invariant Tiles(ranges, first, start) && ScannedTo(mints, first, start, ids, logs)
      decreases last - start, span
    {
      var end := SpanEnd(start, span, last);
      at := (calls, start, end);
      var answer := world(calls, start, end);
      calls := calls + 1;
      if answer == Answered {
        ScannedNext(mints, first, start, end, ids, logs);
        TilesLast(ranges, first, start, end);
        logs := logs + MintsIn(mints, start, end, ids);
        ranges := ranges + [Range(start, end)];
        start := end + 1;
      } else if span > MIN_SPLIT_SPAN && answer == TooLarge {
        span := span / 2;
      } else {
        return false, logs, ranges, at;
      }
    }
    ScannedAll(mints, first, start, last, ids, logs);
    return true, logs, ranges, at;
  }

  // ----- finding the mint

  /** The accounts and ids of the mints in the range with exactly this amount. */
  ghost function Exact(mints: seq<Mint>, lo: nat, hi: nat, ids: Option<set<nat>>, amount: nat): set<(nat, nat)> {
    set m | m in mints && lo <= m.block <= hi && (ids.None? || m.id in ids.value) && m.amount == amount :: (m.to, m.id)
  }

  method Collect(logs: seq<Mint>, amount: nat) returns (matches: set<(nat, nat)>)
    ensures matches == set m | m in logs && m.amount == amount :: (m.to, m.id)
  {
    matches := {};
    for i := 0 to |logs|
      invariant matches == set m | m in logs[..i] && m.amount == amount :: (m.to, m.id)
    {
      assert logs[..i + 1] == logs[..i] + [logs[i]];
      if logs[i].amount == amount {
        matches := matches + {(logs[i].to, logs[i].id)};
      }
    }
    assert logs[..|logs|] == logs;
  }

  lemma SameMatches(mints: seq<Mint>, lo: nat, hi: nat, ids: Option<set<nat>>, amount: nat, logs: seq<Mint>)
    requires multiset(logs) == multiset(MintsIn(mints, lo, hi, ids))
    ensures (set m | m in logs && m.amount == amount :: (m.to, m.id)) == Exact(mints, lo, hi, ids, amount)
  {
    forall m ensures m in logs <==> m in mints && lo <= m.block <= hi && (ids.None? || m.id in ids.value) {
      assert m in logs <==> m in multiset(logs);
      MintsMember(mints, lo, hi, ids, m);
      assert m in MintsIn(mints, lo, hi, ids) <==> m in multiset(MintsIn(mints, lo, hi, ids));
    }
  }

  ghost predicate InWindow(times: nat -> int, later: nat, deposited: int, window: nat, b: nat) {
    1 <= b <= later && deposited <= times(b) < deposited + window
  }

  /** The two latest blocks both carry the deposit's timestamp. */
  ghost predicate HeadTied(times: nat -> int, latest: nat, deposited: int) {
    latest >= 2 && times(latest) == deposited && times(latest - 1) == deposited
  }

  lemma WindowScannedIff(times: nat -> int, latest: nat, later: nat, deposited: int, window: nat, first: nat, last: nat)
    requires Ascending(times, later) && latest <= later
    requires if times(latest) <= deposited then first == latest
             else if latest == 0 then first == 1 else FirstAtOrAfter(times, 1, latest, deposited, first)
    requires if times(later) <= deposited + window then last == later
             else if later == 0 then last == 1 else FirstAtOrAfter(times, 1, later, deposited + window, last)
    ensures (forall b: nat :: InWindow(times, later, deposited, window, b) ==> first <= b <= last)
            <==> window == 0 || !HeadTied(times, latest, deposited)
  {
    forall b: nat | InWindow(times, later, deposited, window, b)
      ensures b <= last && (b < first ==> HeadTied(times, latest, deposited))
    {
      if b < first && times(latest) <= deposited {
        assert times(b) <= times(latest - 1) <= times(latest);
      }
    }
    if window > 0 && HeadTied(times, latest, deposited) {
      assert InWindow(times, later, deposited, window, latest - 1);
    }
  }

  /** The scanned range and what is found in it: the matches among the expected ids if there are
      any, else the matches among all. Every block of the window up to the later head is scanned,
      and so no mint of the amount in it escapes, exactly unless the two latest blocks of the first
      search both carry the deposit's timestamp. The head may move between the two searches, and
      the provider may treat the two scans differently. */
  method FindMintByAmount(times: nat -> int, latest: nat, later: nat, mints: seq<Mint>, expected: set<nat>,
                          deposited: int, window: nat, amount: nat,
                          narrow: (nat, nat, nat) -> Answer, wide: (nat, nat, nat) -> Answer)
    returns (ok: bool, matches: set<(nat, nat)>, first: nat, last: nat)
    requires latest <= later
    ensures times(latest) <= deposited ==> first == latest
    ensures ok ==>
              matches == if Exact(mints, first, last, Some(expected), amount) != {}
                         then Exact(mints, first, last, Some(expected), amount)
                         else Exact(mints, first, last, None, amount)
    ensures Ascending(times, later) ==>
              ((forall b: nat :: InWindow(times, later, deposited, window, b) ==> first <= b <= last)
               <==> window == 0 || !HeadTied(times, latest, deposited))
    ensures !ok ==> exists call: nat, lo: nat, hi: nat :: narrow(call, lo, hi) != Answered || wide(call, lo, hi) != Answered
    ensures ok && Ascending(times, later) && !HeadTied(times, latest, deposited) ==>
              forall m :: m in mints && InWindow(times, later, deposited, window, m.block) && m.amount == amount ==>
                            && matches != {}
                            && (m.id in expected || Exact(mints, first, last, Some(expected), amount) == {}
                                ==> (m.to, m.id) in matches)
  {
    first := FindBlockByTimestamp(times, latest, deposited);
    last := FindBlockByTimestamp(times, later, deposited + window);
    if Ascending(times, later) {
      WindowScannedIff(times, latest, later, deposited, window, first, last);
    }
    hide Ascending, MintsIn, Tiles, FirstAtOrAfter, InWindow, HeadTied;
    var logs, ranges, at;
    ok, logs, ranges, at := ScanAdaptive(mints, first, last, Some(expected), narrow);
    matches := {};
    if !ok {
      return;
    }
    matches := Collect(logs, amount);
    SameMatches(mints, first, last, Some(expected), amount, logs);
    if matches == {} {
      ok, logs, ranges, at := ScanAdaptive(mints, first, last, None, wide);
      if !ok {
        return;
      }
      matches := Collect(logs, amount);
      SameMatches(mints, first, last, None, amount, logs);
    }
    forall m | m in mints && first <= m.block <= last && m.amount == amount
      ensures (m.to, m.id) in Exact(mints, first, last, None, amount)
      ensures m.id in expected ==> (m.to, m.id) in Exact(mints, first, last, Some(expected), amount)
    {
    }
  }

  /** A mint of the amount in the deposit's own second, next to the head, that is not found. */
  method MintMissed() returns (matches: set<(nat, nat)>)
    ensures InWindow(TiedHead, 2, 5, 10, 1) && matches == {}
  {
    var always := (call: nat, lo: nat, hi: nat) => Answered;
    var mints := [Mint(1, 7, 8, 9)];
    var ok, first, last;
    ok, matches, first, last := FindMintByAmount(TiedHead, 2, 2, mints, {8}, 5, 10, 9, always, always);
  }
}
