/** The indexer's in-memory cache: expired entries are deleted lazily by get and swept by set. It
    is compared with an unbounded log of everything ever set.
 */
module TtlCache {
  import opened Wrappers

  datatype Entry = Entry(expiresAt: int, value: string)

  datatype Put = Put(key: string, entry: Entry)

  /** The calls a cache has received; each comes with the clock reading it sees. */
  datatype Op = OpGet(key: string, now: int) | OpSet(key: string, value: string, ttlMs: int, now: int)

  function PutOf(o: Op): Put
    requires o.OpSet?
  {
    Put(o.key, Entry(o.now + o.ttlMs, o.value))
  }

  /** Everything a sequence of operations sets. */
  function Puts(ops: seq<Op>): seq<Put> {
    if ops == [] then []
    else
      var front, o := Puts(ops[..|ops| - 1]), ops[|ops| - 1];
      if o.OpSet? then front + [PutOf(o)] else front
  }

  /** The entry most recently set for a key. */
  function LastSet(log: seq<Put>, key: string): Option<Entry> {
    if log == [] then None
    else if log[|log| - 1].key == key then Some(log[|log| - 1].entry)
    else LastSet(log[..|log| - 1], key)
  }

  /** What a cache that never forgets would answer. */
  function Answer(log: seq<Put>, key: string, now: int): Option<string> {
    match LastSet(log, key)
    case None => None
    case Some(e) => if e.expiresAt <= now then None else Some(e.value)
  }

  // ----- when an entry is still kept

  /** Operations that look at an entry's expiry: every set, and a get of its key. */
  predicate Visits(o: Op, key: string) {
    o.OpSet? || o.key == key
  }

  /** The key is set at i, not set again, and not visited at or after its expiry. */
  ghost predicate KeptSince(ops: seq<Op>, key: string, i: int) {
    && 0 <= i < |ops| && ops[i].OpSet? && ops[i].key == key
    && forall j :: i < j < |ops| && Visits(ops[j], key) ==>
                     (ops[j].OpSet? ==> ops[j].key != key) && ops[j].now < ops[i].now + ops[i].ttlMs
  }

  ghost predicate Kept(ops: seq<Op>, key: string) {
    exists i :: KeptSince(ops, key, i)
  }

  lemma LastSetAppend(log: seq<Put>, p: Put, key: string)
    ensures LastSet(log + [p], key) == if p.key == key then Some(p.entry) else LastSet(log, key)
  {
    assert (log + [p])[..|log|] == log;
  }

  lemma LastSetNext(ops: seq<Op>, o: Op, key: string)
    ensures LastSet(Puts(ops + [o]), key)
            == if o.OpSet? && o.key == key then Some(PutOf(o).entry) else LastSet(Puts(ops), key)
  {
    assert (ops + [o])[..|ops|] == ops;
    if o.OpSet? { LastSetAppend(Puts(ops), PutOf(o), key); }
  }

  /** A kept entry is the one most recently set. */
  lemma {:induction false} KeptIsLast(ops: seq<Op>, key: string, i: nat)
    requires KeptSince(ops, key, i)
    ensures LastSet(Puts(ops), key) == Some(PutOf(ops[i]).entry)
  {
    hide LastSet, Puts;
    var n := |ops| - 1;
    assert ops == ops[..n] + [ops[n]];
    LastSetNext(ops[..n], ops[n], key);
    if i < n {
      assert Visits(ops[n], key) || !ops[n].OpSet?;
      KeptIsLast(ops[..n], key, i);
    }
  }

  /** An entry outlives an operation unless that operation visits it too late. */
  lemma KeptNext(ops: seq<Op>, o: Op, key: string)
    ensures Kept(ops + [o], key) <==>
              || (o.OpSet? && o.key == key)
              || (Kept(ops, key) && (Visits(o, key) ==> Answer(Puts(ops), key, o.now).Some?))
  {
    hide Puts, LastSet;
    var all, n := ops + [o], |ops|;
    if o.OpSet? && o.key == key {
      assert KeptSince(all, key, n);
    } else {
      if Kept(all, key) {
        var i :| KeptSince(all, key, i);
        assert all[i] == ops[i] && all[n] == o;
        assert KeptSince(ops, key, i) by {
          forall j | i < j < |ops| && Visits(ops[j], key)
            ensures (ops[j].OpSet? ==> ops[j].key != key) && ops[j].now < ops[i].now + ops[i].ttlMs
          {
            assert all[j] == ops[j];
          }
        }
        KeptIsLast(ops, key, i);
      }
      if Kept(ops, key) && (Visits(o, key) ==> Answer(Puts(ops), key, o.now).Some?) {
        var i :| KeptSince(ops, key, i);
        KeptIsLast(ops, key, i);
        assert KeptSince(all, key, i);
      }
    }
  }

  // ----- the cache

  /** The entries are those still kept, each as it was last set. */
  ghost predicate Faithful(entries: map<string, Entry>, ops: seq<Op>) {
    && (forall k :: k in entries <==> Kept(ops, k))
    && (forall k :: k in entries ==> LastSet(Puts(ops), k) == Some(entries[k]))
  }

  /** The entries left when all keys outside `rest` have been looked at. */
  function Swept(entries: map<string, Entry>, rest: set<string>, now: int): map<string, Entry> {
    map k | k in entries && (k in rest || entries[k].expiresAt > now) :: entries[k]
  }

  lemma GetFaithful(entries: map<string, Entry>, ops: seq<Op>, key: string, now: int)
    requires Faithful(entries, ops)
    ensures Faithful(if key in entries && entries[key].expiresAt <= now then entries - {key} else entries,
                     ops + [OpGet(key, now)])
  {
    var o := OpGet(key, now);
    forall k
      ensures Kept(ops + [o], k) <==> Kept(ops, k) && (k == key ==> Answer(Puts(ops), k, now).Some?)
      ensures LastSet(Puts(ops + [o]), k) == LastSet(Puts(ops), k)
    {
      KeptNext(ops, o, k);
      LastSetNext(ops, o, k);
    }
    hide Kept, LastSet, Puts;
  }

  lemma SetFaithful(entries: map<string, Entry>, ops: seq<Op>, o: Op)
    requires Faithful(entries, ops) && o.OpSet?
    ensures Faithful(Swept(entries, {}, o.now)[o.key := PutOf(o).entry], ops + [o])
  {
    forall k
      ensures Kept(ops + [o], k) <==> k == o.key || (Kept(ops, k) && Answer(Puts(ops), k, o.now).Some?)
      ensures LastSet(Puts(ops + [o]), k) == if k == o.key then Some(PutOf(o).entry) else LastSet(Puts(ops), k)
    {
      KeptNext(ops, o, k);
      LastSetNext(ops, o, k);
    }
    hide Kept, LastSet, Puts;
  }

  lemma NothingKept()
    ensures Faithful(map[], [])
  {
  }

  class MemoryCacheBackend {
    var entries: map<string, Entry>
    ghost var ops: seq<Op>  // every call so far

    ghost predicate Valid()
      reads this
    {
      Faithful(entries, ops)
    }

    constructor ()
      ensures Valid() && entries == map[] && ops == []
    {
      entries, ops := map[], [];
      NothingKept();
    }

    /** Answers as the log of all sets does for a key that is still kept, and None otherwise. */
    method Get(key: string, now: int) returns (r: Option<string>)
      requires Valid()
      modifies this
      ensures Valid() && ops == old(ops) + [OpGet(key, now)]
      ensures r == if Kept(old(ops), key) then Answer(Puts(old(ops)), key, now) else None
    {
      hide Kept, LastSet, Puts;
      GetFaithful(entries, ops, key, now);
      ops := ops + [OpGet(key, now)];
      if key !in entries {
        return None;
      }
      if entries[key].expiresAt <= now {
        entries := entries - {key};
        return None;
      }
      return Some(entries[key].value);
    }

    /** Records the value; no other entry that has expired survives. */
    method Set(key: string, value: string, ttlMs: int, now: int)
      requires Valid()
      modifies this
      ensures Valid() && ops == old(ops) + [OpSet(key, value, ttlMs, now)]
      ensures key in entries && entries[key] == Entry(now + ttlMs, value)
      ensures forall k :: k in entries && k != key ==> k in old(entries) && entries[k].expiresAt > now
      ensures forall k :: k in old(entries) && k != key && old(entries)[k].expiresAt > now
                ==> k in entries && entries[k] == old(entries)[k]
    {
      hide Kept, LastSet, Puts, Faithful;
      SetFaithful(entries, ops, OpSet(key, value, ttlMs, now));
      var rest := entries.Keys;
      while rest != {}
        modifies this`entries
        invariant rest <= old(entries).Keys && entries == Swept(old(entries), rest, now)
        decreases |rest|
      {
        var k :| k in rest;
        if entries[k].expiresAt <= now {
          entries := entries - {k};
        }
        rest := rest - {k};
      }
      entries := entries[key := Entry(now + ttlMs, value)];
      ops := ops + [OpSet(key, value, ttlMs, now)];
    }
  }

  // ----- whole runs

  /** Each get is answered from the sets before it if its key is still kept, else with None. */
  ghost predicate Served(ops: seq<Op>, answers: seq<Option<string>>) {
    && |answers| <= |ops|
    && forall i :: 0 <= i < |answers| && ops[i].OpGet? ==>
                     answers[i] == if Kept(ops[..i], ops[i].key) then Answer(Puts(ops[..i]), ops[i].key, ops[i].now) else None
  }

  lemma ServedNext(ops: seq<Op>, answers: seq<Option<string>>, r: Option<string>)
    requires Served(ops, answers) && |answers| < |ops|
    requires var n := |answers|;
             ops[n].OpGet? ==>
               r == if Kept(ops[..n], ops[n].key) then Answer(Puts(ops[..n]), ops[n].key, ops[n].now) else None
    ensures Served(ops, answers + [r])
  {
  }

  lemma NothingServed(ops: seq<Op>)
    ensures Served(ops, [])
  {
  }

  lemma ServedIff(ops: seq<Op>, answers: seq<Option<string>>)
    requires Served(ops, answers) && |answers| == |ops|
    ensures forall i :: 0 <= i < |ops| && ops[i].OpGet? ==>
              (answers[i] == Answer(Puts(ops[..i]), ops[i].key, ops[i].now) <==>
               Kept(ops[..i], ops[i].key) || Answer(Puts(ops[..i]), ops[i].key, ops[i].now).None?)
  {
    hide Kept, Answer, Puts;
  }

  ghost predicate ClockForward(ops: seq<Op>) {
    forall i, j :: 0 <= i < j < |ops| ==> ops[i].now <= ops[j].now
  }

  lemma NoSet(key: string)
    ensures LastSet([], key) == None
  {
  }

  /** The place of the last set of a key, if any. */
  lemma {:induction false} LastSetAt(ops: seq<Op>, key: string) returns (i: nat)
    requires LastSet(Puts(ops), key).Some?
    ensures i < |ops| && ops[i].OpSet? && ops[i].key == key && LastSet(Puts(ops), key) == Some(PutOf(ops[i]).entry)
    ensures forall j :: i < j < |ops| && ops[j].OpSet? ==> ops[j].key != key
  {
    hide LastSet;
    var n := |ops| - 1;
    assert ops != [] by { if ops == [] { assert LastSet([], key) == None by { NoSet(key); } } }
    assert ops == ops[..n] + [ops[n]];
    LastSetNext(ops[..n], ops[n], key);
    if ops[n].OpSet? && ops[n].key == key {
      i := n;
    } else {
      i := LastSetAt(ops[..n], key);
    }
  }

  /** With a clock that does not go back every get is answered as by the log. */
  lemma ForwardAnswered(ops: seq<Op>, answers: seq<Option<string>>, i: nat)
    requires Served(ops, answers) && i < |answers| && ops[i].OpGet? && ClockForward(ops)
    ensures answers[i] == Answer(Puts(ops[..i]), ops[i].key, ops[i].now)
  {
    var key, before := ops[i].key, ops[..i];
    if LastSet(Puts(before), key).Some? && !Kept(before, key) {
      var at := LastSetAt(before, key);
      hide LastSet, Puts;
      assert !KeptSince(before, key, at);
      var j :| at < j < i && Visits(before[j], key) && before[j].now >= before[at].now + before[at].ttlMs;
      assert ops[j].now <= ops[i].now;
    }
  }

  /** For every run and any clock: a get is answered as by the log of all sets before it exactly
      if its key is still kept, or the log has nothing unexpired to answer with. */
  method Serve(ops: seq<Op>) returns (answers: seq<Option<string>>)
    ensures |answers| == |ops| && Served(ops, answers)
    ensures forall i :: 0 <= i < |ops| && ops[i].OpGet? ==>
              (answers[i] == Answer(Puts(ops[..i]), ops[i].key, ops[i].now) <==>
               Kept(ops[..i], ops[i].key) || Answer(Puts(ops[..i]), ops[i].key, ops[i].now).None?)
    ensures ClockForward(ops) ==>
              forall i :: 0 <= i < |ops| && ops[i].OpGet? ==> answers[i] == Answer(Puts(ops[..i]), ops[i].key, ops[i].now)
  {
    hide Puts, Answer, Served, Kept, Faithful;
    var cache := new MemoryCacheBackend();
    answers := [];
    NothingServed(ops);
    for n := 0 to |ops|
      invariant |answers| == n && fresh(cache) && cache.Valid() && cache.ops == ops[..n] && Served(ops, answers)
    {
      var r := None;
      match ops[n] {
        case OpGet(key, now) => r := cache.Get(key, now);
        case OpSet(key, value, ttlMs, now) => cache.Set(key, value, ttlMs, now);
      }
      ServedNext(ops, answers, r);
      answers := answers + [r];
    }
    ServedIff(ops, answers);
    if ClockForward(ops) {
      forall i: nat | i < |ops| && ops[i].OpGet?
        ensures answers[i] == Answer(Puts(ops[..i]), ops[i].key, ops[i].now)
      {
        ForwardAnswered(ops, answers, i);
      }
    }
  }

  const TICK_BACK := [OpSet("k", "v", 10, 0), OpGet("k", 20), OpGet("k", 5)]

  /** A clock that goes back: the second get finds nothing although the value has not expired. */
  lemma ClockBackForgets(answers: seq<Option<string>>)
    requires Served(TICK_BACK, answers) && |answers| == 3
    ensures answers[2] == None && Answer(Puts(TICK_BACK[..2]), "k", 5) == Some("v")
  {
    var before := TICK_BACK[..2];
    assert before == [TICK_BACK[0]] + [TICK_BACK[1]] && [] + [TICK_BACK[0]] == [TICK_BACK[0]];
    LastSetNext([TICK_BACK[0]], TICK_BACK[1], "k");
    LastSetNext([], TICK_BACK[0], "k");
    forall i ensures !KeptSince(before, "k", i) {
      if KeptSince(before, "k", i) {
        assert i == 0 && Visits(before[1], "k");
      }
    }
  }
}
