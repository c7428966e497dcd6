/** The two-phase manifest protocol for routed withdrawals. A run of the tool reads the relay
    chain, and emits either a manifest that registers the new payload builder on the chains that
    lack it or, only when none does, a manifest that allows routers. Manifests are executed
    later, transaction by transaction, in part, in any order, or not at all.
 */
module RoutedWithdrawal {
  import opened Rounds
  import opened Wrappers

  type Chain = nat
  type Builder = nat
  type Word = nat

  /** The destination of a run: a chain, its numeric id and its router. */
  datatype Target = Target(chain: Chain, chainId: Word, router: nat)

  datatype Key = ChainIdKey(chain: Chain) | RouterKey(chain: Chain, router: nat)

  const ALLOWED: Word := 1

  datatype Call = SetBuilder(chain: Chain) | SetConfig(keys: seq<Key>, values: seq<Word>)

  // ----- building the calls

  /** Aligned lists cut into consecutive pieces no longer than the chunk, rounded up, and none of
      them empty if the chunk is at least one. */
  ghost predicate Pieces(calls: seq<Call>, keys: seq<Key>, values: seq<Word>, chunk: real) {
    if calls == [] then keys == [] && values == []
    else
      && calls[0].SetConfig? && |calls[0].keys| == |calls[0].values| && FitsChunk(|calls[0].keys|, chunk)
      && calls[0].keys <= keys && calls[0].values <= values
      && Pieces(calls[1..], keys[|calls[0].keys|..], values[|calls[0].values|..], chunk)
  }

  predicate FitsChunk(size: nat, chunk: real) {
    size as real < chunk + 1.0 && (chunk >= 1.0 ==> size > 0)
  }

  lemma PiecesNone(chunk: real)
    ensures Pieces([], [], [], chunk)
  {
  }

  lemma PiecesCons(c: Call, calls: seq<Call>, keys: seq<Key>, values: seq<Word>, chunk: real)
    requires Pieces(calls, keys, values, chunk) && c.SetConfig? && |c.keys| == |c.values| && FitsChunk(|c.keys|, chunk)
    ensures Pieces([c] + calls, c.keys + keys, c.values + values, chunk)
  {
    hide FitsChunk;
    assert ([c] + calls)[1..] == calls;
    assert (c.keys + keys)[|c.keys|..] == keys && (c.values + values)[|c.values|..] == values;
  }

  lemma PiecesTail(calls: seq<Call>, keys: seq<Key>, values: seq<Word>, chunk: real)
    requires Pieces(calls, keys, values, chunk) && calls != []
    ensures calls[0].SetConfig? && |calls[0].keys| == |calls[0].values| && FitsChunk(|calls[0].keys|, chunk)
    ensures calls[0].keys <= keys && calls[0].values <= values
    ensures Pieces(calls[1..], keys[|calls[0].keys|..], values[|calls[0].values|..], chunk)
  {
  }

  lemma Rejoin<T>(first: seq<T>, whole: seq<T>, more: seq<T>)
    requires first <= whole
    ensures first + (whole[|first|..] + more) == whole + more
  {
  }

  lemma {:induction false} PiecesAppend(calls: seq<Call>, keys: seq<Key>, values: seq<Word>, chunk: real, c: Call)
    requires Pieces(calls, keys, values, chunk) && c.SetConfig? && |c.keys| == |c.values| && FitsChunk(|c.keys|, chunk)
    ensures Pieces(calls + [c], keys + c.keys, values + c.values, chunk)
    decreases |calls|
  {
    if calls == [] {
      PiecesCons(c, calls, keys, values, chunk);
      assert [c] + calls == calls + [c] && c.keys + keys == keys + c.keys && c.values + values == values + c.values;
    } else {
      hide Pieces, FitsChunk;
      PiecesTail(calls, keys, values, chunk);
      var first, k := calls[0], |calls[0].keys|;
      PiecesAppend(calls[1..], keys[k..], values[k..], chunk, c);
      PiecesCons(first, calls[1..] + [c], keys[k..] + c.keys, values[k..] + c.values, chunk);
      Rejoin([first], calls, [c]);
      Rejoin(first.keys, keys, c.keys);
      Rejoin(first.values, values, c.values);
    }
  }

  /** A missing, unreadable or zero setting puts everything into one call. */
  function ChunkSize(setting: Option<real>, n: nat): real {
    if setting.Some? && setting.value != 0.0 then setting.value else n as real
  }

  /** Where an array is cut: slice() rounds down and stops at the end. */
  function Cut(i: real, n: nat): (at: nat)
    requires i >= 0.0
    ensures at <= n
  {
    if i.Floor < n then i.Floor else n
  }

  /** The chunking loop comes to an end exactly if there is nothing to cut or the chunk is
      positive. */
  lemma ChunksEndIff(chunk: real, n: nat)
    ensures (exists rounds :: At(chunk, rounds) >= n as real) <==> n == 0 || chunk > 0.0
  {
    if chunk > 0.0 {
      var rounds := EnoughRounds(chunk, n);
    } else {
      forall rounds ensures At(chunk, rounds) <= 0.0 { AtNegative(chunk, rounds); }
      assert At(chunk, 0) == 0.0;
    }
  }

  lemma CutFits(i: real, chunk: real, n: nat)
    requires i >= 0.0 && chunk > 0.0
    ensures Cut(i, n) <= Cut(i + chunk, n) && (Cut(i + chunk, n) - Cut(i, n)) as real < chunk + 1.0
    ensures i < n as real && chunk >= 1.0 ==> Cut(i, n) < Cut(i + chunk, n)
    ensures (i >= n as real ==> Cut(i, n) == n) && (i == 0.0 ==> Cut(i, n) == 0)
  {
  }

  /** The call holds the keys and values between two positions, as slice() cuts them. */
  ghost predicate CutOut(c: Call, keys: seq<Key>, values: seq<Word>, from: real, to: real)
    requires |keys| == |values|
  {
    && 0.0 <= from <= to
    && var lo, hi := Cut(from, |keys|), Cut(to, |keys|);
       lo <= hi && c == SetConfig(keys[lo..hi], values[lo..hi])
  }

  lemma CutOutNow(keys: seq<Key>, values: seq<Word>, from: real, to: real, k: nat, chunk: real)
    requires |keys| == |values| && chunk > 0.0 && 0.0 <= from == At(chunk, k) && to == from + chunk
    ensures to == At(chunk, k + 1)
    ensures var lo, hi := Cut(from, |keys|), Cut(to, |keys|);
            lo <= hi && CutOut(SetConfig(keys[lo..hi], values[lo..hi]), keys, values, At(chunk, k), At(chunk, k + 1))
  {
    CutFits(from, chunk, |keys|);
  }

  lemma OnePiece(keys: seq<Key>, values: seq<Word>, calls: seq<Call>)
    requires |keys| == |values| > 0 && calls != [] && At(|keys| as real, |calls| - 1) < |keys| as real
    requires CutOut(calls[0], keys, values, At(|keys| as real, 0), At(|keys| as real, 1))
    ensures calls == [SetConfig(keys, values)]
  {
    var n := |keys| as real;
    assert At(n, 0) == 0.0 && At(n, 1) == n;
    AtMonotone(n, 1, |calls| - 1);
    assert keys[0..|keys|] == keys && values[0..|values|] == values;
  }

  /** The chunking loop: the calls carry exactly the two lists, in order. */
  method ChunkCalls(keys: seq<Key>, values: seq<Word>, setting: Option<real>) returns (calls: seq<Call>)
    requires |keys| == |values| && (keys == [] || ChunkSize(setting, |keys|) > 0.0)
    ensures Pieces(calls, keys, values, ChunkSize(setting, |keys|))
    ensures keys != [] && (setting.None? || setting.value == 0.0) ==> calls == [SetConfig(keys, values)]
    ensures var chunk := if setting.None? || setting.value == 0.0 then |keys| as real else setting.value;
            && At(chunk, |calls|) >= |keys| as real && (calls != [] ==> At(chunk, |calls| - 1) < |keys| as real)
            && forall k :: 0 <= k < |calls| ==> CutOut(calls[k], keys, values, At(chunk, k), At(chunk, k + 1))
  {
    hide Pieces, Cut, At, CutOut;
    var chunk := ChunkSize(setting, |keys|);
    calls := [];
    PiecesNone(chunk);
    if keys == [] {
      AtZero(chunk);
      return;
    }
    ghost var rounds: int := EnoughRounds(chunk, |keys|);
    var i: real := 0.0;
    ghost var k: int := 0;
    AtZero(chunk);
    CutFits(i, chunk, |keys|);
    while i < |keys| as real
      invariant k >= 0 && 0.0 <= i == At(chunk, k)
      invariant Pieces(calls, keys[..Cut(i, |keys|)], values[..Cut(i, |keys|)], chunk)
      invariant k == |calls| && (calls != [] ==> At(chunk, |calls| - 1) < |keys| as real)
      invariant forall j :: 0 <= j < |calls| ==> CutOut(calls[j], keys, values, At(chunk, j), At(chunk, j + 1))
      decreases rounds - k
    {
      AtMonotone(chunk, rounds, k);
      CutFits(i, chunk, |keys|);
      var from, end := Cut(i, |keys|), Cut(i + chunk, |keys|);
      var c := SetConfig(keys[from..end], values[from..end]);
      PiecesAppend(calls, keys[..from], values[..from], chunk, c);
      CutOutNow(keys, values, i, i + chunk, k, chunk);
      assert keys[..from] + keys[from..end] == keys[..end] && values[..from] + values[from..end] == values[..end];
      calls := calls + [c];
      i, k := i + chunk, k + 1;
    }
    CutFits(i, chunk, |keys|);
    assert keys[..|keys|] == keys && values[..|values|] == values;
    if setting.None? || setting.value == 0.0 {
      OnePiece(keys, values, calls);
    }
  }

  function IsSet(config: map<Key, Word>, k: Key, v: Word): bool {
    k in config && config[k] == v
  }

  datatype Entries = Entries(keys: seq<Key>, values: seq<Word>)

  function PushUnlessSet(config: map<Key, Word>, e: Entries, k: Key, v: Word): Entries {
    if IsSet(config, k, v) then e else Entries(e.keys + [k], e.values + [v])
  }

  function PushTarget(config: map<Key, Word>, e: Entries, t: Target): Entries {
    PushUnlessSet(config, PushUnlessSet(config, e, ChainIdKey(t.chain), t.chainId), RouterKey(t.chain, t.router), ALLOWED)
  }

  /** The configuration still missing for some targets, in order. */
  function Missing(config: map<Key, Word>, targets: seq<Target>): (e: Entries)
    ensures |e.keys| == |e.values|
  {
    if targets == [] then Entries([], [])
    else PushTarget(config, Missing(config, targets[..|targets| - 1]), targets[|targets| - 1])
  }

  /** The targets whose registered builder is another one, in order. */
  function Unregistered(registered: map<Chain, Builder>, targets: seq<Target>, builder: Builder): seq<Call> {
    if targets == [] then []
    else
      var front, t := Unregistered(registered, targets[..|targets| - 1], builder), targets[|targets| - 1];
      if t.chain in registered && registered[t.chain] == builder then front else front + [SetBuilder(t.chain)]
  }

  /** A registration is listed exactly for the targets whose chain does not have the new builder. */
  lemma {:induction false} UnregisteredIff(registered: map<Chain, Builder>, targets: seq<Target>, builder: Builder, call: Call)
    ensures call in Unregistered(registered, targets, builder) <==>
              && call.SetBuilder? && !(call.chain in registered && registered[call.chain] == builder)
              && exists i :: 0 <= i < |targets| && targets[i].chain == call.chain
  {
    if targets != [] {
      var n := |targets| - 1;
      UnregisteredIff(registered, targets[..n], builder, call);
      if call.SetBuilder? && exists i :: 0 <= i < n && targets[..n][i].chain == call.chain {
        var i :| 0 <= i < n && targets[..n][i].chain == call.chain;
        assert targets[i].chain == call.chain;
      }
      if call.SetBuilder? && exists i :: 0 <= i < |targets| && targets[i].chain == call.chain {
        var i :| 0 <= i < |targets| && targets[i].chain == call.chain;
        assert i < n ==> targets[..n][i].chain == call.chain;
      }
    }
  }

  /** The calls of one run on a relay chain that does not change while it is read, and the phase
      choice: registrations alone while any is pending, else the configuration. */
  method Generate(registered: map<Chain, Builder>, config: map<Key, Word>, targets: seq<Target>, builder: Builder, setting: Option<real>)
    returns (calls: seq<Call>)
    requires setting.Some? ==> setting.value >= 0.0
    ensures var missing := Missing(config, targets);
            var pending := Unregistered(registered, targets, builder);
            if pending != [] then calls == pending
            else Pieces(calls, missing.keys, missing.values, ChunkSize(setting, |missing.keys|))
  {
    var builderCalls: seq<Call> := [];
    var entries := Entries([], []);
    for i := 0 to |targets|
      invariant builderCalls == Unregistered(registered, targets[..i], builder)
      invariant entries == Missing(config, targets[..i])
    {
      assert targets[..i + 1][..i] == targets[..i];
      var t := targets[i];
      if !(t.chain in registered && registered[t.chain] == builder) {
        builderCalls := builderCalls + [SetBuilder(t.chain)];
      }
      entries := PushUnlessSet(config, entries, ChainIdKey(t.chain), t.chainId);
      entries := PushUnlessSet(config, entries, RouterKey(t.chain, t.router), ALLOWED);
    }
    assert targets[..|targets|] == targets;
    var configCalls := ChunkCalls(entries.keys, entries.values, setting);
    calls := if |builderCalls| > 0 then builderCalls else configCalls;
  }

  // ----- carrying out a configuration manifest leaves nothing to do

  function Assign(config: map<Key, Word>, keys: seq<Key>, values: seq<Word>): map<Key, Word>
    requires |keys| == |values|
  {
    if keys == [] then config
    else Assign(config, keys[..|keys| - 1], values[..|values| - 1])[keys[|keys| - 1] := values[|values| - 1]]
  }

  function Carry(config: map<Key, Word>, calls: seq<Call>): map<Key, Word>
    decreases |calls|
  {
    if calls == [] then config
    else Carry(if calls[0].SetConfig? && |calls[0].keys| == |calls[0].values|
               then Assign(config, calls[0].keys, calls[0].values) else config, calls[1..])
  }

  lemma {:induction false} AssignConcat(config: map<Key, Word>, a: seq<Key>, x: seq<Word>, b: seq<Key>, y: seq<Word>)
    requires |a| == |x| && |b| == |y|
    ensures Assign(config, a + b, x + y) == Assign(Assign(config, a, x), b, y)
    decreases |b|
  {
    if b == [] {
      assert a + b == a && x + y == x;
    } else {
      var n := |b| - 1;
      AssignConcat(config, a, x, b[..n], y[..n]);
      assert (a + b)[..|a| + n] == a + b[..n] && (x + y)[..|x| + n] == x + y[..n];
    }
  }

  /** Executing the pieces in order is assigning the whole lists. */
  lemma {:induction false} CarryPieces(config: map<Key, Word>, calls: seq<Call>, keys: seq<Key>, values: seq<Word>, chunk: real)
    requires Pieces(calls, keys, values, chunk) && |keys| == |values|
    ensures Carry(config, calls) == Assign(config, keys, values)
    decreases |calls|
  {
    if calls != [] {
      var c := calls[0];
      var k := |c.keys|;
      assert keys == c.keys + keys[k..] && values == c.values + values[k..];
      AssignConcat(config, c.keys, c.values, keys[k..], values[k..]);
      CarryPieces(Assign(config, c.keys, c.values), calls[1..], keys[k..], values[k..], chunk);
    }
  }

  predicate Wants(t: Target, k: Key, v: Word) {
    (k == ChainIdKey(t.chain) && v == t.chainId) || (k == RouterKey(t.chain, t.router) && v == 1)
  }

  /** A chain listed twice is listed with the same numeric id. */
  ghost predicate Consistent(targets: seq<Target>) {
    forall t, u :: t in targets && u in targets && t.chain == u.chain ==> t.chainId == u.chainId
  }

  /** Every pair is wanted by some target. */
  ghost predicate AllWanted(e: Entries, targets: seq<Target>) {
    |e.keys| == |e.values| && forall i :: 0 <= i < |e.keys| ==> exists t :: t in targets && Wants(t, e.keys[i], e.values[i])
  }

  ghost predicate Present(e: Entries, config: map<Key, Word>, k: Key, v: Word) {
    IsSet(config, k, v) || k in e.keys
  }

  lemma PushFacts(config: map<Key, Word>, e: Entries, k: Key, v: Word, t: Target, targets: seq<Target>)
    requires AllWanted(e, targets) && t in targets && Wants(t, k, v)
    ensures AllWanted(PushUnlessSet(config, e, k, v), targets)
    ensures Present(PushUnlessSet(config, e, k, v), config, k, v)
    ensures forall k', v' :: Present(e, config, k', v') ==> Present(PushUnlessSet(config, e, k, v), config, k', v')
  {
    var e' := PushUnlessSet(config, e, k, v);
    if e' != e { assert e'.keys[|e.keys|] == k; }
  }

  lemma {:induction false} MissingFacts(config: map<Key, Word>, targets: seq<Target>, all: seq<Target>)
    requires targets <= all
    ensures AllWanted(Missing(config, targets), all)
    ensures forall t, k, v :: t in targets && Wants(t, k, v) ==> Present(Missing(config, targets), config, k, v)
    decreases |targets|
  {
    if targets != [] {
      var n := |targets| - 1;
      var t := targets[n];
      assert t == all[n] && forall u :: u in targets <==> u in targets[..n] || u == t;
      MissingFacts(config, targets[..n], all);
      var e := Missing(config, targets[..n]);
      PushFacts(config, e, ChainIdKey(t.chain), t.chainId, t, all);
      PushFacts(config, PushUnlessSet(config, e, ChainIdKey(t.chain), t.chainId), RouterKey(t.chain, t.router), ALLOWED, t, all);
      hide Present, AllWanted, PushUnlessSet;
    }
  }

  lemma {:induction false} AssignSets(config: map<Key, Word>, keys: seq<Key>, values: seq<Word>, k: Key, v: Word)
    requires |keys| == |values| && (IsSet(config, k, v) || k in keys)
    requires forall i :: 0 <= i < |keys| && keys[i] == k ==> values[i] == v
    ensures IsSet(Assign(config, keys, values), k, v)
  {
    if keys != [] {
      var n := |keys| - 1;
      if keys[n] != k {
        assert k in keys ==> k in keys[..n];
        AssignSets(config, keys[..n], values[..n], k, v);
      }
    }
  }

  lemma {:induction false} NothingMissing(config: map<Key, Word>, targets: seq<Target>)
    requires forall t, k, v :: t in targets && Wants(t, k, v) ==> IsSet(config, k, v)
    ensures Missing(config, targets) == Entries([], [])
  {
    if targets != [] {
      var n := |targets| - 1;
      NothingMissing(config, targets[..n]);
      assert Wants(targets[n], ChainIdKey(targets[n].chain), targets[n].chainId);
      assert Wants(targets[n], RouterKey(targets[n].chain, targets[n].router), ALLOWED);
    }
  }

  /** Once a complete configuration manifest is carried out, a further run finds nothing to set,
      however the manifest was cut into chunks. */
  lemma CarriedOutThenNothingMissing(config: map<Key, Word>, targets: seq<Target>, calls: seq<Call>, chunk: real)
    requires Consistent(targets)
    requires Pieces(calls, Missing(config, targets).keys, Missing(config, targets).values, chunk)
    ensures Missing(Carry(config, calls), targets) == Entries([], [])
  {
    hide Missing, Assign, Carry, Pieces;
    var e := Missing(config, targets);
    CarryPieces(config, calls, e.keys, e.values, chunk);
    MissingFacts(config, targets, targets);
    forall t, k, v | t in targets && Wants(t, k, v)
      ensures IsSet(Assign(config, e.keys, e.values), k, v)
    {
      assert Present(e, config, k, v);
      AssignSets(config, e.keys, e.values, k, v);
    }
    NothingMissing(Carry(config, calls), targets);
  }

  // ----- the protocol

  /** A run in progress: the targets not yet read and the calls gathered so far. */
  datatype Tool =
    | Resting
    | Reading(todo: seq<Target>, stage: nat, builders: seq<Call>, keys: seq<Key>, values: seq<Word>)

  datatype State = State(
    registered: map<Chain, Builder>, config: map<Key, Word>,
    tool: Tool, emitted: seq<Call>,
    allowedByTool: set<Chain>)  // chains on which an emitted call has allowed a router

  datatype Event =
    | Begin(targets: seq<Target>)
    | ReadNext                           // the next of the three reads for the current target
    | Finish(chunk: Option<real>, calls: seq<Call>)
    | Abort
    | Execute(index: nat)                // an emitted transaction lands; a reverted one changes nothing
    | OtherRegisters(chain: Chain, builder: Builder)
    | OtherConfigures(key: Key, value: Word)

  function Registered(s: State, c: Chain, builder: Builder): bool {
    c in s.registered && s.registered[c] == builder
  }

  function ReadStep(s: State, builder: Builder): State
    requires s.tool.Reading?
  {
    var Reading(todo, stage, builders, keys, values) := s.tool;
    if todo == [] then s
    else
      var t := todo[0];
      if stage == 0 then
        s.(tool := Reading(todo, 1, if Registered(s, t.chain, builder) then builders else builders + [SetBuilder(t.chain)], keys, values))
      else if stage == 1 then
        var e := PushUnlessSet(s.config, Entries(keys, values), ChainIdKey(t.chain), t.chainId);
        s.(tool := Reading(todo, 2, builders, e.keys, e.values))
      else
        var e := PushUnlessSet(s.config, Entries(keys, values), RouterKey(t.chain, t.router), ALLOWED);
        s.(tool := Reading(todo[1..], 0, builders, e.keys, e.values))
  }

  function RouterChains(keys: seq<Key>): set<Chain> {
    set k | k in keys && k.RouterKey? :: k.chain
  }

  function Perform(s: State, call: Call, builder: Builder): State {
    match call
    case SetBuilder(c) => s.(registered := s.registered[c := builder])
    case SetConfig(keys, values) =>
      if |keys| != |values| then s
      else s.(config := Assign(s.config, keys, values), allowedByTool := s.allowedByTool + RouterChains(keys))
  }

  ghost function Step(s: State, e: Event, builder: Builder): State {
    match e
    case Begin(targets) => if s.tool.Resting? then s.(tool := Reading(targets, 0, [], [], [])) else s
    case ReadNext => if s.tool.Reading? then ReadStep(s, builder) else s
    case Finish(setting, calls) =>
      if !s.tool.Reading? || s.tool.todo != [] then s
      else if s.tool.builders != [] then
        s.(tool := Resting, emitted := s.emitted + s.tool.builders)
      else if Pieces(calls, s.tool.keys, s.tool.values, ChunkSize(setting, |s.tool.keys|))
      then s.(tool := Resting, emitted := s.emitted + calls)
      else s
    case Abort => s.(tool := Resting)
    case Execute(i) => if i < |s.emitted| then Perform(s, s.emitted[i], builder) else s
    case OtherRegisters(c, b) =>
      // Others do not undo a registration of the new builder.
      if Registered(s, c, builder) then s else s.(registered := s.registered[c := b])
    case OtherConfigures(k, v) => s.(config := s.config[k := v])
  }

  ghost function Run(s: State, events: seq<Event>, builder: Builder): State
    decreases |events|
  {
    if events == [] then s else Run(Step(s, events[0], builder), events[1..], builder)
  }

  // ----- safety

  ghost predicate AllRegistered(s: State, chains: set<Chain>, builder: Builder) {
    forall c :: c in chains ==> Registered(s, c, builder)
  }

  /** Chains whose router key was gathered while every target so far was registered. */
  ghost predicate ToolOk(s: State, builder: Builder) {
    s.tool.Reading? ==>
      && |s.tool.keys| == |s.tool.values|
      && (forall c :: c in s.tool.builders ==> c.SetBuilder?)
      && (s.tool.builders == [] ==> AllRegistered(s, RouterChains(s.tool.keys), builder))
      && (s.tool.builders == [] && s.tool.stage != 0 && s.tool.todo != [] ==> Registered(s, s.tool.todo[0].chain, builder))
  }

  ghost predicate Safe(s: State, builder: Builder) {
    && AllRegistered(s, s.allowedByTool, builder)
    && (forall i :: 0 <= i < |s.emitted| && s.emitted[i].SetConfig? ==> AllRegistered(s, RouterChains(s.emitted[i].keys), builder))
    && ToolOk(s, builder)
  }

  /** Registrations of the new builder are never lost. */
  lemma RegisteredStays(s: State, e: Event, builder: Builder, c: Chain)
    requires Registered(s, c, builder)
    ensures Registered(Step(s, e, builder), c, builder)
  {
  }

  lemma {:induction false} PiecesChains(calls: seq<Call>, keys: seq<Key>, values: seq<Word>, chunk: real, i: nat)
    requires Pieces(calls, keys, values, chunk) && i < |calls|
    ensures calls[i].SetConfig? && RouterChains(calls[i].keys) <= RouterChains(keys)
    decreases |calls|
  {
    if i > 0 {
      PiecesChains(calls[1..], keys[|calls[0].keys|..], values[|calls[0].values|..], chunk, i - 1);
    }
  }

  lemma RouterChainsAppend(keys: seq<Key>, k: Key)
    ensures RouterChains(keys + [k]) == RouterChains(keys) + (if k.RouterKey? then {k.chain} else {})
  {
    assert forall x :: x in keys + [k] <==> x in keys || x == k;
  }

  lemma ReadKeeps(s: State, builder: Builder)
    requires Safe(s, builder) && s.tool.Reading?
    ensures Safe(ReadStep(s, builder), builder)
  {
    if s.tool.todo != [] {
      RouterChainsAppend(s.tool.keys, ChainIdKey(s.tool.todo[0].chain));
      RouterChainsAppend(s.tool.keys, RouterKey(s.tool.todo[0].chain, s.tool.todo[0].router));
    }
  }

  lemma FinishKeeps(s: State, setting: Option<real>, calls: seq<Call>, builder: Builder)
    requires Safe(s, builder)
    ensures Safe(Step(s, Finish(setting, calls), builder), builder)
  {
    var s' := Step(s, Finish(setting, calls), builder);
    if s' != s && s.tool.builders != [] {
      assert forall i :: |s.emitted| <= i < |s'.emitted| ==> s'.emitted[i] in s.tool.builders;
    } else if s' != s {
      forall i | |s.emitted| <= i < |s'.emitted|
        ensures s'.emitted[i].SetConfig? && AllRegistered(s', RouterChains(s'.emitted[i].keys), builder)
      {
        PiecesChains(calls, s.tool.keys, s.tool.values,
                     ChunkSize(setting, |s.tool.keys|), i - |s.emitted|);
      }
    }
  }

  lemma StepKeeps(s: State, e: Event, builder: Builder)
    requires Safe(s, builder)
    ensures Safe(Step(s, e, builder), builder)
  {
    forall c | Registered(s, c, builder) ensures Registered(Step(s, e, builder), c, builder) {
      RegisteredStays(s, e, builder, c);
    }
    match e
    case ReadNext => if s.tool.Reading? { ReadKeeps(s, builder); }
    case Finish(setting, calls) => FinishKeeps(s, setting, calls, builder);
    case _ =>
  }

  lemma {:induction false} RunKeeps(s: State, events: seq<Event>, builder: Builder)
    requires Safe(s, builder)
    ensures Safe(Run(s, events, builder), builder)
    decreases |events|
  {
    if events != [] {
      StepKeeps(s, events[0], builder);
      RunKeeps(Step(s, events[0], builder), events[1..], builder);
    }
  }

  /** In every run of generating, executing in part or out of order, and generating again, whatever
      the relay chain held at first, no emitted call ever allows a router on a chain whose builder
      is not the new one at that moment. */
  lemma NoRouterBeforeBuilder(registered: map<Chain, Builder>, config: map<Key, Word>, events: seq<Event>, i: nat, builder: Builder)
    requires i < |Run(State(registered, config, Resting, [], {}), events, builder).emitted|
    ensures var s := Run(State(registered, config, Resting, [], {}), events, builder);
            && (s.emitted[i].SetConfig? ==>
                  forall k :: k in s.emitted[i].keys && k.RouterKey? ==> Registered(s, k.chain, builder))
            && forall c :: c in s.allowedByTool ==> Registered(s, c, builder)
  {
    RunKeeps(State(registered, config, Resting, [], {}), events, builder);
    var s := Run(State(registered, config, Resting, [], {}), events, builder);
    if s.emitted[i].SetConfig? {
      forall k | k in s.emitted[i].keys && k.RouterKey? ensures Registered(s, k.chain, builder) {
        assert k.chain in RouterChains(s.emitted[i].keys);
      }
    }
  }

  // ----- a run that nothing interferes with gathers what Generate computes

  function ReadTimes(s: State, n: nat, builder: Builder): State {
    if n == 0 then s
    else
      var s' := ReadTimes(s, n - 1, builder);
      if s'.tool.Reading? then ReadStep(s', builder) else s'
  }

  function Gathered(registered: map<Chain, Builder>, config: map<Key, Word>, targets: seq<Target>, i: nat, builder: Builder): Tool
    requires i <= |targets|
  {
    var e := Missing(config, targets[..i]);
    Reading(targets[i..], 0, Unregistered(registered, targets[..i], builder), e.keys, e.values)
  }

  /** The three reads of the next target add exactly what it lacks. */
  lemma ReadTarget(s: State, targets: seq<Target>, i: nat, builder: Builder)
    requires i < |targets| && s.tool == Gathered(s.registered, s.config, targets, i, builder)
    ensures ReadTimes(s, 3, builder) == s.(tool := Gathered(s.registered, s.config, targets, i + 1, builder))
  {
    assert targets[..i + 1][..i] == targets[..i] && targets[i..][0] == targets[i] && targets[i..][1..] == targets[i + 1..];
    var s1 := ReadTimes(s, 1, builder);
    assert s1 == ReadStep(ReadTimes(s, 0, builder), builder);
    var s2 := ReadTimes(s, 2, builder);
    assert s2 == ReadStep(s1, builder);
  }

  lemma {:induction false} ReadConcat(s: State, m: nat, n: nat, builder: Builder)
    ensures ReadTimes(s, m + n, builder) == ReadTimes(ReadTimes(s, m, builder), n, builder)
  {
    if n > 0 { ReadConcat(s, m, n - 1, builder); }
  }

  lemma NoReads(s: State, targets: seq<Target>, builder: Builder)
    ensures ReadTimes(s, 0, builder) == s
    ensures Gathered(s.registered, s.config, targets, 0, builder) == Reading(targets, 0, [], [], [])
  {
    assert targets[..0] == [] && targets[0..] == targets;
  }

  lemma {:induction false} QuietReads(s: State, targets: seq<Target>, i: nat, builder: Builder)
    requires i <= |targets| && s.tool == Reading(targets, 0, [], [], [])
    ensures ReadTimes(s, 3 * i, builder) == s.(tool := Gathered(s.registered, s.config, targets, i, builder))
  {
    hide ReadTimes, Gathered;
    if i == 0 {
      NoReads(s, targets, builder);
    } else {
      QuietReads(s, targets, i - 1, builder);
      ReadTarget(ReadTimes(s, 3 * (i - 1), builder), targets, i - 1, builder);
      ReadConcat(s, 3 * (i - 1), 3, builder);
    }
  }

  /** A run of the protocol on a relay chain that stands still emits exactly the calls that
      Generate promises. */
  lemma QuietRunEmits(s: State, targets: seq<Target>, setting: Option<real>, calls: seq<Call>, builder: Builder)
    requires s.tool == Resting
    requires var missing := Missing(s.config, targets);
             var pending := Unregistered(s.registered, targets, builder);
             if pending != [] then calls == pending
             else Pieces(calls, missing.keys, missing.values, ChunkSize(setting, |missing.keys|))
    ensures Step(ReadTimes(Step(s, Begin(targets), builder), 3 * |targets|, builder), Finish(setting, calls), builder)
            == s.(emitted := s.emitted + calls)
  {
    QuietReads(Step(s, Begin(targets), builder), targets, |targets|, builder);
    assert targets[..|targets|] == targets && targets[|targets|..] == [];
  }

  // ----- carrying a manifest out

  /** The state after the emitted calls from i on, n of them, are executed in order. */
  ghost function Performed(s: State, i: nat, n: nat, builder: Builder): State {
    if n == 0 then s else Step(Performed(s, i, n - 1, builder), Execute(i + n - 1), builder)
  }

  lemma {:induction false} CarryAppend(config: map<Key, Word>, calls: seq<Call>, c: Call)
    ensures Carry(config, calls + [c])
            == if c.SetConfig? && |c.keys| == |c.values| then Assign(Carry(config, calls), c.keys, c.values) else Carry(config, calls)
    decreases |calls|
  {
    if calls == [] {
      assert calls + [c] == [c] && [c][1..] == [];
    } else {
      assert (calls + [c])[0] == calls[0] && (calls + [c])[1..] == calls[1..] + [c];
      var first := if calls[0].SetConfig? && |calls[0].keys| == |calls[0].values|
                   then Assign(config, calls[0].keys, calls[0].values) else config;
      CarryAppend(first, calls[1..], c);
    }
  }

  lemma PerformOne(s: State, i: nat, builder: Builder)
    requires i < |s.emitted|
    ensures var s', call := Step(s, Execute(i), builder), s.emitted[i];
            && s'.emitted == s.emitted && s'.tool == s.tool
            && s'.config == (if call.SetConfig? && |call.keys| == |call.values| then Assign(s.config, call.keys, call.values) else s.config)
            && forall c :: Registered(s', c, builder) <==> Registered(s, c, builder) || SetBuilder(c) == call
  {
    hide Assign;
  }

  /** Executing emitted calls sets exactly the configuration they carry and registers the new builder
      on exactly the chains they name. */
  lemma {:induction false} PerformedIs(s: State, i: nat, n: nat, builder: Builder)
    requires i + n <= |s.emitted|
    ensures var s' := Performed(s, i, n, builder);
            && s'.emitted == s.emitted && s'.tool == s.tool
            && s'.config == Carry(s.config, s.emitted[i..i + n])
            && forall c :: Registered(s', c, builder) <==> Registered(s, c, builder) || SetBuilder(c) in s.emitted[i..i + n]
  {
    if n > 0 {
      var before := Performed(s, i, n - 1, builder);
      var call := s.emitted[i + n - 1];
      assert s.emitted[i..i + n] == s.emitted[i..i + n - 1] + [call];
      hide Carry, Assign, Step, Registered;
      PerformedIs(s, i, n - 1, builder);
      CarryAppend(s.config, s.emitted[i..i + n - 1], call);
      PerformOne(before, i + n - 1, builder);
    }
  }

  lemma FirstIn(calls: seq<Call>)
    ensures calls != [] ==> calls[0] in calls
  {
  }

  /** Once a registration manifest is carried out, a further run finds no chain to register. */
  lemma ExecutedThenRegistered(s: State, targets: seq<Target>, i: nat, n: nat, builder: Builder)
    requires i + n <= |s.emitted| && s.emitted[i..i + n] == Unregistered(s.registered, targets, builder)
    ensures Unregistered(Performed(s, i, n, builder).registered, targets, builder) == []
  {
    PerformedIs(s, i, n, builder);
    var s' := Performed(s, i, n, builder);
    hide Unregistered, Performed;
    var left := Unregistered(s'.registered, targets, builder);
    forall call: Call ensures call !in left {
      UnregisteredIff(s'.registered, targets, builder, call);
      UnregisteredIff(s.registered, targets, builder, call);
      if call.SetBuilder? { assert Registered(s', call.chain, builder) <==> Registered(s, call.chain, builder) || call in s.emitted[i..i + n]; }
    }
    FirstIn(left);
  }

  /** Once a configuration manifest is carried out, a further run finds nothing to set. */
  lemma ExecutedThenConfigured(s: State, targets: seq<Target>, i: nat, n: nat, chunk: real, builder: Builder)
    requires i + n <= |s.emitted| && Consistent(targets)
    requires Pieces(s.emitted[i..i + n], Missing(s.config, targets).keys, Missing(s.config, targets).values, chunk)
    ensures Missing(Performed(s, i, n, builder).config, targets) == Entries([], [])
  {
    hide Pieces, Missing, Carry;
    PerformedIs(s, i, n, builder);
    CarriedOutThenNothingMissing(s.config, targets, s.emitted[i..i + n], chunk);
  }
}
