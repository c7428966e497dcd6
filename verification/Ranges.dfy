/** Sequences of block ranges that follow one another. */
module Ranges {

  datatype Range = Range(lo: nat, hi: nat)

  /** Ranges that follow one another without gap or overlap and cover exactly [from, to). */
  ghost predicate Tiles(ranges: seq<Range>, from: nat, to: nat) {
    if ranges == [] then from == to
    else
      var Range(lo, hi) := ranges[0];
      lo == from && lo <= hi && hi + 1 <= to && Tiles(ranges[1..], hi + 1, to)
  }

  lemma TilesNone(from: nat)
    ensures Tiles([], from, from)
  {
  }

  lemma {:induction false} TilesAppend(a: seq<Range>, b: seq<Range>, from: nat, mid: nat, to: nat)
    requires Tiles(a, from, mid) && Tiles(b, mid, to)
    ensures Tiles(a + b, from, to)
    decreases |a|
  {
    if a == [] {
      assert a + b == b;
    } else {
      assert (a + b)[1..] == a[1..] + b;
      TilesAppend(a[1..], b, a[0].hi + 1, mid, to);
      TilesForward(b, mid, to);
    }
  }

  lemma {:induction false} TilesForward(ranges: seq<Range>, from: nat, to: nat)
    requires Tiles(ranges, from, to)
    ensures from <= to
  {
    if ranges != [] { TilesForward(ranges[1..], ranges[0].hi + 1, to); }
  }

  lemma TilesLast(ranges: seq<Range>, from: nat, start: nat, end: nat)
    requires Tiles(ranges, from, start) && start <= end
    ensures Tiles(ranges + [Range(start, end)], from, end + 1)
  {
    assert Tiles([Range(start, end)], start, end + 1);
    TilesAppend(ranges, [Range(start, end)], from, start, end + 1);
  }

  /** The blocks of [lo, end). */
  function Blocks(lo: nat, end: nat): (r: set<int>)
    ensures forall b :: b in r <==> lo <= b < end
  {
    if end <= lo then {} else Blocks(lo, end - 1) + {end - 1}
  }
}
