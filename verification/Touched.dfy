/** How one batch of transfer logs is turned into reconcile calls: which addresses it touches,
    with which timestamps, in which calls, and what is recorded when a call fails.
 */
module Touched {
  import opened Wrappers

  type Token = nat

  /** A decoded transfer with its block and the timestamp of that block. */
  datatype Transfer = Transfer(key: nat, block: nat, token: Token, from: string, to: string, timestamp: nat)

  /** What becomes of a log before reconciliation. */
  datatype Fate = Undecodable | SkippedToken | InsertThrows(committed: bool) | Stored(isNew: bool)

  datatype Input = Input(log: Transfer, fate: Fate)

  datatype Call = Call(token: Token, addresses: seq<string>, timestamp: nat)

  function LowerChar(c: char): char {
    if 'A' <= c <= 'Z' then c - 'A' + 'a' else c
  }

  function Lower(s: string): string {
    seq(|s|, i requires 0 <= i < |s| => LowerChar(s[i]))
  }

  /** Capital letters become small ones and every other character stays. */
  lemma LowerIs(s: string, i: nat)
    requires i < |s|
    ensures |Lower(s)| == |s|
    ensures Lower(s)[i] as int == if 65 <= s[i] as int <= 90 then s[i] as int + 32 else s[i] as int
  {
  }

  /** A log counts as touched if its event is new or lies above the checkpoint. */
  predicate IsTouched(x: Input, checkpoint: int) {
    x.fate.Stored? && (x.fate.isNew || x.log.block > checkpoint)
  }

  predicate Mentions(x: Input, checkpoint: int, t: Token, a: string) {
    IsTouched(x, checkpoint) && x.log.token == t && (Lower(x.log.from) == a || Lower(x.log.to) == a)
  }

  /** ts is the greatest timestamp among the touched logs of t that mention a. */
  ghost predicate IsLatest(inputs: seq<Input>, checkpoint: int, t: Token, a: string, ts: nat) {
    && (exists x :: x in inputs && Mentions(x, checkpoint, t, a) && x.log.timestamp == ts)
    && (forall x :: x in inputs && Mentions(x, checkpoint, t, a) ==> x.log.timestamp <= ts)
  }

  /** The touched logs of a token, in order. */
  function TouchedOf(inputs: seq<Input>, checkpoint: int, t: Token): seq<Transfer> {
    if inputs == [] then []
    else
      var front, x := TouchedOf(inputs[..|inputs| - 1], checkpoint, t), inputs[|inputs| - 1];
      if IsTouched(x, checkpoint) && x.log.token == t then front + [x.log] else front
  }

  function Thrown(inputs: seq<Input>): set<Transfer> {
    set x | x in inputs && x.fate.InsertThrows? :: x.log
  }

  // ----- the touched maps

  type Times = map<Token, map<string, nat>>

  /** The time of an address is the greatest it was touched with. */
  function Touch(touched: Times, t: Token, a: string, ts: nat): Times {
    var before := if t in touched then touched[t] else map[];
    touched[t := before[a := if a in before && ts < before[a] then before[a] else ts]]
  }

  predicate Has(touched: Times, t: Token, a: string) {
    t in touched && a in touched[t]
  }

  function TouchLog(touched: Times, l: Transfer): Times {
    Touch(Touch(touched, l.token, Lower(l.from), l.timestamp), l.token, Lower(l.to), l.timestamp)
  }

  lemma TouchLogAt(touched: Times, l: Transfer, t: Token, a: string)
    ensures var now := t == l.token && (a == Lower(l.from) || a == Lower(l.to));
            && (Has(TouchLog(touched, l), t, a) <==> Has(touched, t, a) || now)
            && (now && !(Has(touched, t, a) && l.timestamp < touched[t][a]) ==> TouchLog(touched, l)[t][a] == l.timestamp)
            && (Has(touched, t, a) && (!now || l.timestamp < touched[t][a]) ==> TouchLog(touched, l)[t][a] == touched[t][a])
  {
  }

  /** Every mentioned address, and no other, with its latest timestamp. */
  ghost predicate TimesOk(touched: Times, inputs: seq<Input>, checkpoint: int) {
    && (forall t, a :: Has(touched, t, a) ==> IsLatest(inputs, checkpoint, t, a, touched[t][a]))
    && (forall t, a, x :: x in inputs && Mentions(x, checkpoint, t, a) ==> Has(touched, t, a))
  }

  /** Every touched log of every token, in order. */
  ghost predicate LogsOk(logs: map<Token, seq<Transfer>>, inputs: seq<Input>, checkpoint: int) {
    && (forall t :: t in logs ==> logs[t] == TouchedOf(inputs, checkpoint, t) != [])
    && (forall t :: t !in logs ==> TouchedOf(inputs, checkpoint, t) == [])
  }

  /** The maps hold exactly what the inputs touched. */
  ghost predicate Collected(touched: Times, logs: map<Token, seq<Transfer>>, inputs: seq<Input>, checkpoint: int) {
    logs.Keys == touched.Keys && LogsOk(logs, inputs, checkpoint) && TimesOk(touched, inputs, checkpoint)
  }

  lemma TouchedOfAppend(inputs: seq<Input>, checkpoint: int, x: Input, t: Token)
    ensures TouchedOf(inputs + [x], checkpoint, t)
            == TouchedOf(inputs, checkpoint, t) + if IsTouched(x, checkpoint) && x.log.token == t then [x.log] else []
  {
    assert (inputs + [x])[..|inputs|] == inputs;
  }

  lemma LogsStep(logs: map<Token, seq<Transfer>>, inputs: seq<Input>, checkpoint: int, x: Input)
    requires LogsOk(logs, inputs, checkpoint)
    ensures IsTouched(x, checkpoint) ==>
              LogsOk(logs[x.log.token := (if x.log.token in logs then logs[x.log.token] else []) + [x.log]], inputs + [x], checkpoint)
    ensures !IsTouched(x, checkpoint) ==> LogsOk(logs, inputs + [x], checkpoint)
  {
    forall t
      ensures TouchedOf(inputs + [x], checkpoint, t)
              == TouchedOf(inputs, checkpoint, t) + if IsTouched(x, checkpoint) && x.log.token == t then [x.log] else []
    {
      TouchedOfAppend(inputs, checkpoint, x, t);
    }
  }

  lemma LatestStep(inputs: seq<Input>, checkpoint: int, x: Input, t: Token, a: string, ts: nat)
    requires Mentions(x, checkpoint, t, a) ==> x.log.timestamp <= ts
    requires || IsLatest(inputs, checkpoint, t, a, ts)
             || (&& Mentions(x, checkpoint, t, a) && x.log.timestamp == ts
                 && forall y :: y in inputs && Mentions(y, checkpoint, t, a) ==> y.log.timestamp <= ts)
    ensures IsLatest(inputs + [x], checkpoint, t, a, ts)
  {
    assert forall y :: y in inputs + [x] <==> y in inputs || y == x;
  }

  lemma TimesStep(touched: Times, inputs: seq<Input>, checkpoint: int, x: Input)
    requires TimesOk(touched, inputs, checkpoint)
    ensures TimesOk(if IsTouched(x, checkpoint) then TouchLog(touched, x.log) else touched, inputs + [x], checkpoint)
  {
    var after := if IsTouched(x, checkpoint) then TouchLog(touched, x.log) else touched;
    forall t, a | Has(after, t, a)
      ensures IsLatest(inputs + [x], checkpoint, t, a, after[t][a])
    {
      hide Touch, TouchLog, Lower;
      TouchLogAt(touched, x.log, t, a);
      LatestStep(inputs, checkpoint, x, t, a, after[t][a]);
    }
    forall t, a, y | y in inputs + [x] && Mentions(y, checkpoint, t, a)
      ensures Has(after, t, a)
    {
      hide Touch, TouchLog, Lower;
      TouchLogAt(touched, x.log, t, a);
    }
  }

  // ----- calls and groups

  function Pairs(addresses: seq<string>, ts: nat): multiset<(string, nat)> {
    if addresses == [] then multiset{}
    else Pairs(addresses[..|addresses| - 1], ts) + multiset{(addresses[|addresses| - 1], ts)}
  }

  /** Every (address, timestamp) reconciled for a token, with multiplicity. */
  function Reconciled(calls: seq<Call>, t: Token): multiset<(string, nat)> {
    if calls == [] then multiset{}
    else
      var c := calls[|calls| - 1];
      Reconciled(calls[..|calls| - 1], t) + if c.token == t then Pairs(c.addresses, c.timestamp) else multiset{}
  }

  function Flatten(groups: seq<(nat, seq<string>)>): multiset<(string, nat)> {
    if groups == [] then multiset{} else Pairs(groups[0].1, groups[0].0) + Flatten(groups[1..])
  }

  /** Addresses with the same timestamp go into one group, in order of first use. */
  function AddToGroup(groups: seq<(nat, seq<string>)>, ts: nat, a: string): seq<(nat, seq<string>)> {
    if groups == [] then [(ts, [a])]
    else if groups[0].0 == ts then [(ts, groups[0].1 + [a])] + groups[1..]
    else [groups[0]] + AddToGroup(groups[1..], ts, a)
  }

  lemma PairsAppend(addresses: seq<string>, a: string, ts: nat)
    ensures Pairs(addresses + [a], ts) == Pairs(addresses, ts) + multiset{(a, ts)}
  {
    assert (addresses + [a])[..|addresses|] == addresses;
  }

  lemma FlattenCons(g: (nat, seq<string>), rest: seq<(nat, seq<string>)>)
    ensures Flatten([g] + rest) == Pairs(g.1, g.0) + Flatten(rest)
  {
    assert ([g] + rest)[1..] == rest;
  }

  lemma {:induction false} AddToGroupAdds(groups: seq<(nat, seq<string>)>, ts: nat, a: string)
    ensures Flatten(AddToGroup(groups, ts, a)) == Flatten(groups) + multiset{(a, ts)}
  {
    if groups == [] {
      PairsAppend([], a, ts);
      assert [] + [a] == [a];
      FlattenCons((ts, [a]), []);
    } else if groups[0].0 == ts {
      PairsAppend(groups[0].1, a, ts);
      FlattenCons((ts, groups[0].1 + [a]), groups[1..]);
    } else {
      AddToGroupAdds(groups[1..], ts, a);
      FlattenCons(groups[0], AddToGroup(groups[1..], ts, a));
    }
  }

  function CallsFor(t: Token, groups: seq<(nat, seq<string>)>): seq<Call> {
    seq(|groups|, i requires 0 <= i < |groups| => Call(t, groups[i].1, groups[i].0))
  }

  lemma {:induction false} ReconciledCalls(before: seq<Call>, t: Token, groups: seq<(nat, seq<string>)>, u: Token)
    ensures Reconciled(before + CallsFor(t, groups), u)
            == Reconciled(before, u) + if u == t then Flatten(groups) else multiset{}
    decreases |groups|
  {
    var after := before + CallsFor(t, groups);
    if groups == [] {
      assert after == before;
    } else {
      var c := Call(t, groups[0].1, groups[0].0);
      assert after == (before + [c]) + CallsFor(t, groups[1..]);
      ReconciledAppend(before, c, u);
      ReconciledCalls(before + [c], t, groups[1..], u);
    }
  }

  ghost predicate Distinct(groups: seq<(nat, seq<string>)>) {
    forall i, j :: 0 <= i < j < |groups| ==> groups[i].0 != groups[j].0
  }

  lemma {:induction false} AddToGroupDistinct(groups: seq<(nat, seq<string>)>, ts: nat, a: string)
    requires Distinct(groups)
    ensures Distinct(AddToGroup(groups, ts, a))
    ensures forall g :: g in AddToGroup(groups, ts, a) ==> g.0 == ts || exists h :: h in groups && h.0 == g.0
  {
    if groups != [] && groups[0].0 != ts {
      AddToGroupDistinct(groups[1..], ts, a);
      var rest := AddToGroup(groups[1..], ts, a);
      forall g | g in rest
        ensures g.0 != groups[0].0 && (g.0 == ts || exists h :: h in groups && h.0 == g.0)
      {
        if g.0 != ts {
          var h :| h in groups[1..] && h.0 == g.0;
          assert h in groups;
        }
      }
      assert forall i :: 0 < i < |rest| + 1 ==> ([groups[0]] + rest)[i] in rest;
    }
  }

  ghost predicate NoneEmpty(groups: seq<(nat, seq<string>)>) {
    forall i :: 0 <= i < |groups| ==> groups[i].1 != []
  }

  lemma {:induction false} AddToGroupFull(groups: seq<(nat, seq<string>)>, ts: nat, a: string)
    requires NoneEmpty(groups)
    ensures NoneEmpty(AddToGroup(groups, ts, a))
  {
    if groups != [] && groups[0].0 != ts {
      AddToGroupFull(groups[1..], ts, a);
    }
  }

  lemma RemoveItem(m: map<string, nat>, a: string)
    requires a in m
    ensures multiset(m.Items) == multiset((m - {a}).Items) + multiset{(a, m[a])}
  {
    var rest := m - {a};
    forall p ensures p in m.Items <==> p in rest.Items || p == (a, m[a]) {
      assert p in rest.Items <==> p.0 in rest && rest[p.0] == p.1;
    }
    assert m.Items == rest.Items + {(a, m[a])} && (a, m[a]) !in rest.Items;
  }

  lemma OnceEach(touched: Times, logs: map<Token, seq<Transfer>>, inputs: seq<Input>, checkpoint: int, t: Token, a: string, ts: nat)
    requires Collected(touched, logs, inputs, checkpoint) && t in touched
    ensures multiset(touched[t].Items)[(a, ts)] == if IsLatest(inputs, checkpoint, t, a, ts) then 1 else 0
  {
    hide LogsOk, Mentions;
    if IsLatest(inputs, checkpoint, t, a, ts) {
      var x :| x in inputs && Mentions(x, checkpoint, t, a) && x.log.timestamp == ts;
      assert Has(touched, t, a) && IsLatest(inputs, checkpoint, t, a, touched[t][a]);
    } else {
      assert Has(touched, t, a) ==> touched[t][a] != ts;
    }
  }

  lemma ReconciledAppend(calls: seq<Call>, c: Call, t: Token)
    ensures Reconciled(calls + [c], t)
            == Reconciled(calls, t) + if c.token == t then Pairs(c.addresses, c.timestamp) else multiset{}
  {
    assert (calls + [c])[..|calls|] == calls;
  }

  /** Every address of the token reconciled exactly once with its time, and the token synced. */
  ghost predicate Settles(calls: seq<Call>, synced: set<Token>, t: Token, byAddress: map<string, nat>) {
    t in synced && Reconciled(calls, t) == multiset(byAddress.Items)
  }

  ghost predicate Records(failed: set<Transfer>, logs: seq<Transfer>) {
    forall l :: l in logs ==> l in failed
  }

  /** Each address the touched logs of t mention was reconciled once, with its latest timestamp,
      and nothing else was. */
  ghost predicate ExactlyOnce(inputs: seq<Input>, checkpoint: int, calls: seq<Call>, t: Token) {
    forall a, ts: nat :: Reconciled(calls, t)[(a, ts)] == if IsLatest(inputs, checkpoint, t, a, ts) then 1 else 0
  }

  lemma SettlesExactly(touched: Times, logs: map<Token, seq<Transfer>>, inputs: seq<Input>, checkpoint: int,
                       calls: seq<Call>, synced: set<Token>, t: Token)
    requires Collected(touched, logs, inputs, checkpoint) && t in touched && Settles(calls, synced, t, touched[t])
    ensures ExactlyOnce(inputs, checkpoint, calls, t)
  {
    forall a, ts: nat
      ensures Reconciled(calls, t)[(a, ts)] == if IsLatest(inputs, checkpoint, t, a, ts) then 1 else 0
    {
      OnceEach(touched, logs, inputs, checkpoint, t, a, ts);
    }
  }

  lemma SettlesStays(a: seq<Call>, b: seq<Call>, s: set<Token>, s': set<Token>, t: Token, byAddress: map<string, nat>)
    requires Reconciled(a, t) == Reconciled(b, t) && s <= s'
    ensures Settles(a, s, t, byAddress) ==> Settles(b, s', t, byAddress)
  {
  }

  lemma RecordsStays(a: set<Transfer>, b: set<Transfer>, logs: seq<Transfer>)
    requires a <= b
    ensures Records(a, logs) ==> Records(b, logs)
  {
  }

  lemma SettlesNow(calls: seq<Call>, synced: set<Token>, t: Token, byAddress: map<string, nat>)
    requires t in synced && Reconciled(calls, t) == multiset{} + multiset(byAddress.Items)
    ensures Settles(calls, synced, t, byAddress)
  {
  }

  lemma RecordsNow(failed: set<Transfer>, logs: seq<Transfer>)
    requires (set l | l in logs) <= failed
    ensures Records(failed, logs)
  {
    assert forall l :: l in logs ==> l in set m | m in logs;
  }

  /** The tokens outside `rest` are settled or recorded, the others not reconciled at all. */
  ghost predicate Handled(touched: Times, logs: map<Token, seq<Transfer>>, rest: set<Token>,
                          calls: seq<Call>, synced: set<Token>, failed: set<Transfer>)
    requires logs.Keys == touched.Keys
  {
    && (forall t :: t !in touched || t in rest ==> Reconciled(calls, t) == multiset{})
    && (forall t :: t in touched && t !in rest ==> Settles(calls, synced, t, touched[t]) || Records(failed, logs[t]))
  }

  ghost predicate AllSettled(touched: Times, rest: set<Token>, calls: seq<Call>, synced: set<Token>) {
    forall t :: t in touched && t !in rest ==> Settles(calls, synced, t, touched[t])
  }

  lemma HandledNone(touched: Times, logs: map<Token, seq<Transfer>>, synced: set<Token>, failed: set<Transfer>)
    requires logs.Keys == touched.Keys
    ensures Handled(touched, logs, touched.Keys, [], synced, failed) && AllSettled(touched, touched.Keys, [], synced)
  {
  }

  /** Handling one token leaves the others as they were. */
  lemma HandledNext(touched: Times, logs: map<Token, seq<Transfer>>, rest: set<Token>, t: Token, settled: bool,
                    calls: seq<Call>, synced: set<Token>, failed: set<Transfer>,
                    calls': seq<Call>, synced': set<Token>, failed': set<Transfer>)
    requires logs.Keys == touched.Keys && t in rest && t in touched && synced <= synced' && failed <= failed'
    requires Handled(touched, logs, rest, calls, synced, failed)
    requires forall u :: u != t ==> Reconciled(calls', u) == Reconciled(calls, u)
    requires settled ==> t in synced' && Reconciled(calls', t) == Reconciled(calls, t) + multiset(touched[t].Items)
    requires !settled ==> Records(failed', logs[t])
    ensures Handled(touched, logs, rest - {t}, calls', synced', failed')
    ensures settled && AllSettled(touched, rest, calls, synced) ==> AllSettled(touched, rest - {t}, calls', synced')
  {
    hide Reconciled, Settles, Records;
    if settled { SettlesNow(calls', synced', t, touched[t]); }
    forall u | u in touched && u !in rest
      ensures Settles(calls, synced, u, touched[u]) ==> Settles(calls', synced', u, touched[u])
      ensures Records(failed, logs[u]) ==> Records(failed', logs[u])
    {
      SettlesStays(calls, calls', synced, synced', u, touched[u]);
      RecordsStays(failed, failed', logs[u]);
    }
  }

  /** How a token was handled: the groups of its addresses, how many of them were called for, and
      whether the last call and the sync went well. */
  datatype Handling = Handling(token: Token, groups: seq<(nat, seq<string>)>, made: nat, callsOk: bool, syncOk: bool)

  ghost predicate HandlingOk(h: Handling, byAddress: map<string, nat>) {
    && Flatten(h.groups) == multiset(byAddress.Items) && NoneEmpty(h.groups)
    && h.made <= |h.groups| && (if h.callsOk then h.made == |h.groups| else h.made > 0)
  }

  function AllCalls(hs: seq<Handling>): seq<Call> {
    if hs == [] then []
    else
      var h := hs[|hs| - 1];
      AllCalls(hs[..|hs| - 1]) + if h.made <= |h.groups| then CallsFor(h.token, h.groups[..h.made]) else []
  }

  predicate SettledBy(h: Handling) {
    h.callsOk && h.syncOk
  }

  function SyncedBy(hs: seq<Handling>): set<Token> {
    set h | h in hs && h.syncOk :: h.token
  }

  function RecordedBy(hs: seq<Handling>, logs: map<Token, seq<Transfer>>): set<Transfer> {
    set h, l | h in hs && !SettledBy(h) && h.token in logs && l in logs[h.token] :: l
  }

  /** The handlings so far: one for each token outside `rest`, and what they did. */
  ghost predicate Traced(hs: seq<Handling>, touched: Times, logs: map<Token, seq<Transfer>>, rest: set<Token>,
                         calls: seq<Call>, synced: set<Token>, recorded: set<Transfer>) {
    && (forall i :: 0 <= i < |hs| ==> hs[i].token in touched && hs[i].token !in rest && HandlingOk(hs[i], touched[hs[i].token]))
    && (forall i, j :: 0 <= i < j < |hs| ==> hs[i].token != hs[j].token)
    && (forall t :: t in touched && t !in rest ==> exists i :: 0 <= i < |hs| && hs[i].token == t)
    && calls == AllCalls(hs) && synced == SyncedBy(hs) && recorded == RecordedBy(hs, logs)
  }

  lemma AllCallsNext(hs: seq<Handling>, h: Handling, byAddress: map<string, nat>)
    requires HandlingOk(h, byAddress)
    ensures h.made <= |h.groups| && AllCalls(hs + [h]) == AllCalls(hs) + CallsFor(h.token, h.groups[..h.made])
  {
    assert (hs + [h])[..|hs|] == hs;
  }

  lemma SetsNext(hs: seq<Handling>, h: Handling, logs: map<Token, seq<Transfer>>)
    requires h.token in logs
    ensures SyncedBy(hs + [h]) == if h.syncOk then SyncedBy(hs) + {h.token} else SyncedBy(hs)
    ensures RecordedBy(hs + [h], logs)
            == if SettledBy(h) then RecordedBy(hs, logs) else RecordedBy(hs, logs) + set l | l in logs[h.token]
  {
    assert forall x :: x in hs + [h] <==> x in hs || x == h;
  }

  lemma TracedNext(hs: seq<Handling>, touched: Times, logs: map<Token, seq<Transfer>>, rest: set<Token>, h: Handling,
                   calls: seq<Call>, synced: set<Token>, recorded: set<Transfer>)
    requires Traced(hs, touched, logs, rest, calls, synced, recorded)
    requires h.token in rest && h.token in touched && h.token in logs && HandlingOk(h, touched[h.token])
    ensures Traced(hs + [h], touched, logs, rest - {h.token}, calls + CallsFor(h.token, h.groups[..h.made]),
                   if h.syncOk then synced + {h.token} else synced,
                   if SettledBy(h) then recorded else recorded + set l | l in logs[h.token])
  {
    hide HandlingOk, AllCalls, SyncedBy, RecordedBy, CallsFor;
    var all := hs + [h];
    AllCallsNext(hs, h, touched[h.token]);
    SetsNext(hs, h, logs);
    forall t | t in touched && t !in rest - {h.token}
      ensures exists i :: 0 <= i < |all| && all[i].token == t
    {
      if t == h.token {
        assert all[|hs|].token == t;
      } else {
        var i :| 0 <= i < |hs| && hs[i].token == t;
        assert all[i].token == t;
      }
    }
  }

  lemma TracedRecorded(hs: seq<Handling>, touched: Times, logs: map<Token, seq<Transfer>>,
                       calls: seq<Call>, synced: set<Token>, recorded: set<Transfer>)
    requires Traced(hs, touched, logs, {}, calls, synced, recorded)
    ensures recorded == RecordedBy(hs, logs)
  {
  }

  lemma SameTokens(touched: Times, logs: map<Token, seq<Transfer>>, inputs: seq<Input>, checkpoint: int)
    requires Collected(touched, logs, inputs, checkpoint)
    ensures logs.Keys == touched.Keys
  {
  }

  lemma TracedNone(touched: Times, logs: map<Token, seq<Transfer>>)
    ensures Traced([], touched, logs, touched.Keys, [], {}, {})
  {
  }

  /** What handling every token means for the batch. */
  lemma BatchHandled(touched: Times, logs: map<Token, seq<Transfer>>, inputs: seq<Input>, checkpoint: int,
                     calls: seq<Call>, synced: set<Token>, failed: set<Transfer>)
    requires Collected(touched, logs, inputs, checkpoint) && Handled(touched, logs, {}, calls, synced, failed)
    ensures forall t :: TouchedOf(inputs, checkpoint, t) != [] ==>
              || (t in synced && ExactlyOnce(inputs, checkpoint, calls, t))
              || Records(failed, TouchedOf(inputs, checkpoint, t))
    ensures forall t :: TouchedOf(inputs, checkpoint, t) == [] ==> Reconciled(calls, t) == multiset{}
    ensures AllSettled(touched, {}, calls, synced) ==>
              forall t :: TouchedOf(inputs, checkpoint, t) != [] ==> t in synced && ExactlyOnce(inputs, checkpoint, calls, t)
  {
    hide Reconciled, TouchedOf, Records, ExactlyOnce, TimesOk;
    forall t | t in touched && Settles(calls, synced, t, touched[t])
      ensures t in synced && ExactlyOnce(inputs, checkpoint, calls, t)
    {
      SettlesExactly(touched, logs, inputs, checkpoint, calls, synced, t);
    }
  }

  lemma CollectedNone(checkpoint: int)
    ensures Collected(map[], map[], [], checkpoint) && Thrown([]) == {}
  {
  }

  /** One log more. */
  lemma CollectedStep(touched: Times, logs: map<Token, seq<Transfer>>, inputs: seq<Input>, n: nat, checkpoint: int)
    requires n < |inputs| && Collected(touched, logs, inputs[..n], checkpoint)
    ensures var Input(log, fate) := inputs[n];
            var before := if log.token in logs then logs[log.token] else [];
            if IsTouched(inputs[n], checkpoint)
            then Collected(TouchLog(touched, log), logs[log.token := before + [log]], inputs[..n + 1], checkpoint)
            else Collected(touched, logs, inputs[..n + 1], checkpoint)
    ensures Thrown(inputs[..n + 1]) == Thrown(inputs[..n]) + if inputs[n].fate.InsertThrows? then {inputs[n].log} else {}
  {
    assert inputs[..n + 1] == inputs[..n] + [inputs[n]];
    TimesStep(touched, inputs[..n], checkpoint, inputs[n]);
    LogsStep(logs, inputs[..n], checkpoint, inputs[n]);
    hide LogsOk, TimesOk;
  }

  lemma ThrownGrows(inputs: seq<Input>, n: nat)
    requires n <= |inputs|
    ensures Thrown(inputs[..n]) <= Thrown(inputs)
  {
  }

  /** A recordFailedEvent call may throw, before or after its row is there. */
  datatype Recording = Recorded | RecordThrows(kept: bool)

  class TransferBatch {
    var touched: map<Token, map<string, nat>>
    var touchedLogs: map<Token, seq<Transfer>>
    var failed: set<Transfer>   // rows of failed_events
    var calls: seq<Call>        // reconcile calls made, oldest first
    var synced: set<Token>
    var records: nat            // recordFailedEvent calls made
    const reconcileOk: nat -> bool
    const syncOk: Token -> bool
    const recording: nat -> Recording

    constructor (reconcileOk: nat -> bool, syncOk: Token -> bool, recording: nat -> Recording)
      ensures touched == map[] && touchedLogs == map[] && failed == {} && calls == [] && synced == {} && records == 0
      ensures this.reconcileOk == reconcileOk && this.syncOk == syncOk && this.recording == recording
    {
      touched, touchedLogs, failed, calls, synced, records := map[], map[], {}, [], {}, 0;
      this.reconcileOk, this.syncOk, this.recording := reconcileOk, syncOk, recording;
    }

    /** Every recordFailedEvent call in a stretch of them went well. */
    ghost predicate Recorded(from: nat, to: nat) {
      forall n: nat :: from <= n < to ==> recording(n).Recorded?
    }

    method Record(log: Transfer) returns (ok: bool)
      modifies this`failed, this`records
      ensures records == old(records) + 1 && (ok <==> recording(old(records)).Recorded?)
      ensures old(failed) <= failed <= old(failed) + {log} && (ok ==> log in failed)
    {
      var outcome := recording(records);
      records := records + 1;
      if outcome.Recorded? || outcome.kept {
        failed := failed + {log};
      }
      return outcome.Recorded?;
    }

    method AddTouchedAddress(t: Token, address: string, timestamp: nat)
      modifies this`touched
      ensures touched == Touch(old(touched), t, Lower(address), timestamp)
    {
      var normalized := Lower(address);
      var byAddress: map<string, nat> := if t in touched then touched[t] else map[];
      var best: nat := if normalized in byAddress then byAddress[normalized] else 0;
      if best < timestamp {
        best := timestamp;
      }
      touched := touched[t := byAddress[normalized := best]];
    }

    /** The first pass over the logs of a batch; it throws exactly if a row cannot be recorded. */
    method Collect(inputs: seq<Input>, checkpoint: int) returns (ok: bool)
      requires touched == map[] && touchedLogs == map[]
      modifies this`touched, this`touchedLogs, this`failed, this`records
      ensures ok ==> Collected(touched, touchedLogs, inputs, checkpoint) && failed == old(failed) + Thrown(inputs)
      ensures old(failed) <= failed <= old(failed) + Thrown(inputs)
      ensures old(records) <= records && (ok <==> Recorded(old(records), records))
    {
      hide Collected, Thrown;
      CollectedNone(checkpoint);
      for n := 0 to |inputs|
        invariant Collected(touched, touchedLogs, inputs[..n], checkpoint) && failed == old(failed) + Thrown(inputs[..n])
        invariant old(records) <= records && Recorded(old(records), records)
      {
        CollectedStep(touched, touchedLogs, inputs, n, checkpoint);
        var Input(log, fate) := inputs[n];
        if fate.Stored? && (fate.isNew || log.block > checkpoint) {
          AddTouchedAddress(log.token, log.from, log.timestamp);
          AddTouchedAddress(log.token, log.to, log.timestamp);
          var logs := if log.token in touchedLogs then touchedLogs[log.token] else [];
          touchedLogs := touchedLogs[log.token := logs + [log]];
        }
        if fate.InsertThrows? {
          var recorded := Record(log);
          if !recorded {
            ThrownGrows(inputs, n + 1);
            return false;
          }
        }
      }
      assert inputs[..|inputs|] == inputs;
      return true;
    }

    method GroupByTime(byAddress: map<string, nat>) returns (groups: seq<(nat, seq<string>)>)
      ensures Flatten(groups) == multiset(byAddress.Items)
      ensures NoneEmpty(groups) && forall i, j :: 0 <= i < j < |groups| ==> groups[i].0 != groups[j].0
    {
      groups := [];
      var rest := byAddress;
      while rest != map[]
        invariant Flatten(groups) + multiset(rest.Items) == multiset(byAddress.Items)
        invariant Distinct(groups) && NoneEmpty(groups)
        decreases |rest|
      {
        var a :| a in rest;
        ghost var before := rest.Items;
        AddToGroupAdds(groups, rest[a], a);
        AddToGroupDistinct(groups, rest[a], a);
        AddToGroupFull(groups, rest[a], a);
        groups := AddToGroup(groups, rest[a], a);
        RemoveItem(rest, a);
        rest := rest - {a};
      }
    }

    method RecordFailed(logs: seq<Transfer>) returns (ok: bool)
      modifies this`failed, this`records
      ensures ok ==> failed == old(failed) + set l | l in logs
      ensures old(failed) <= failed <= old(failed) + set l | l in logs
      ensures old(records) <= records && (ok <==> Recorded(old(records), records))
    {
      for i := 0 to |logs|
        invariant failed == old(failed) + set l | l in logs[..i]
        invariant old(records) <= records && Recorded(old(records), records)
      {
        assert forall l :: l in logs[..i + 1] <==> l in logs[..i] || l == logs[i];
        var recorded := Record(logs[i]);
        if !recorded {
          return false;
        }
      }
      assert logs[..|logs|] == logs;
      return true;
    }

    /** The reconcile calls of one token, up to the first that fails. */
    method CallGroups(t: Token, groups: seq<(nat, seq<string>)>) returns (ok: bool, ghost made: nat)
      modifies this`calls
      ensures made <= |groups| && calls == old(calls) + CallsFor(t, groups[..made])
      ensures if ok then made == |groups| else made > 0
      ensures ok <==> forall n :: |old(calls)| <= n < |calls| ==> reconcileOk(n)
      ensures forall n :: |old(calls)| <= n < |calls| - 1 ==> reconcileOk(n)
    {
      ok, made := true, 0;
      var i := 0;
      while i < |groups| && ok
        invariant i == made <= |groups| && calls == old(calls) + CallsFor(t, groups[..i]) && (!ok ==> made > 0)
        invariant ok <==> forall n :: |old(calls)| <= n < |calls| ==> reconcileOk(n)
        invariant forall n :: |old(calls)| <= n < |calls| - 1 ==> reconcileOk(n)
      {
        assert CallsFor(t, groups[..i + 1]) == CallsFor(t, groups[..i]) + [Call(t, groups[i].1, groups[i].0)];
        ok := reconcileOk(|calls|);
        calls := calls + [Call(t, groups[i].1, groups[i].0)];
        i, made := i + 1, made + 1;
      }
      assert groups[..|groups|] == groups;
    }

    /** One token: one reconcile call per distinct timestamp, then the count. If every call and the
        sync succeed, each address was reconciled once, with its time; otherwise all touched logs
        of the token are recorded, and the batch throws exactly if one of them cannot be. */
    method ReconcileToken(t: Token) returns (ok: bool, settled: bool, ghost h: Handling)
      requires t in touched && t in touchedLogs
      modifies this`failed, this`calls, this`synced, this`records
      ensures h.token == t && HandlingOk(h, touched[t]) && calls == old(calls) + CallsFor(t, h.groups[..h.made])
      ensures forall u :: u != t ==> Reconciled(calls, u) == Reconciled(old(calls), u)
      ensures synced == if ok && syncOk(t) then old(synced) + {t} else old(synced)
      ensures settled ==> ok && failed == old(failed)
      ensures settled ==> Reconciled(calls, t) == Reconciled(old(calls), t) + multiset(touched[t].Items)
      ensures ok && !settled ==> failed == old(failed) + set l | l in touchedLogs[t]
      ensures old(failed) <= failed <= old(failed) + set l | l in touchedLogs[t]
      ensures settled <==> syncOk(t) && forall n :: |old(calls)| <= n < |calls| ==> reconcileOk(n)
      ensures forall n :: |old(calls)| <= n < |calls| - 1 ==> reconcileOk(n)
      ensures h.syncOk == syncOk(t) && (settled <==> SettledBy(h))
      ensures old(records) <= records && (ok <==> Recorded(old(records), records))
    {
      hide Reconciled, Flatten, NoneEmpty;
      var groups := GroupByTime(touched[t]);
      ghost var made;
      settled, made := CallGroups(t, groups);
      h := Handling(t, groups, made, settled, syncOk(t));
      forall u | u != t ensures Reconciled(calls, u) == Reconciled(old(calls), u) {
        ReconciledCalls(old(calls), t, groups[..made], u);
      }
      ReconciledCalls(old(calls), t, groups, t);
      assert groups[..|groups|] == groups;
      ok := true;
      if !settled {
        ok := RecordFailed(touchedLogs[t]);
        if !ok {
          return;
        }
      }
      if syncOk(t) {
        synced := synced + {t};
      } else if settled {
        settled := false;
        ok := RecordFailed(touchedLogs[t]);
      }
    }

    ghost predicate AllGoesWell() {
      (forall n :: reconcileOk(n)) && (forall t :: syncOk(t))
    }

    /** The second pass: every touched token, in any order. */
    method ReconcileAll() returns (ok: bool, ghost hs: seq<Handling>)
      requires touchedLogs.Keys == touched.Keys && calls == [] && synced == {}
      modifies this`failed, this`calls, this`synced, this`records
      ensures old(failed) <= failed && old(records) <= records && (ok <==> Recorded(old(records), records))
      ensures ok ==> Handled(touched, touchedLogs, {}, calls, synced, failed)
      ensures ok ==> Traced(hs, touched, touchedLogs, {}, calls, synced, RecordedBy(hs, touchedLogs))
                     && failed == old(failed) + RecordedBy(hs, touchedLogs)
      ensures AllGoesWell() ==> ok && failed == old(failed) && AllSettled(touched, {}, calls, synced)
    {
      hide Reconciled, Handled, AllSettled, Records, Traced, HandlingOk, RecordedBy, CallsFor;
      HandledNone(touched, touchedLogs, synced, failed);
      TracedNone(touched, touchedLogs);
      var rest := touched.Keys;
      hs := [];
      ghost var recorded: set<Transfer> := {};
      while rest != {}
        invariant rest <= touched.Keys
        invariant old(records) <= records && Recorded(old(records), records)
        invariant Handled(touched, touchedLogs, rest, calls, synced, failed)
        invariant Traced(hs, touched, touchedLogs, rest, calls, synced, recorded) && failed == old(failed) + recorded
        invariant AllGoesWell() ==> failed == old(failed) && AllSettled(touched, rest, calls, synced)
        decreases |rest|
      {
        var t :| t in rest;
        ghost var calls0, synced0, failed0 := calls, synced, failed;
        var settled;
        ghost var h;
        ok, settled, h := ReconcileToken(t);
        if !ok {
          return false, hs;
        }
        if !settled { RecordsNow(failed, touchedLogs[t]); }
        HandledNext(touched, touchedLogs, rest, t, settled, calls0, synced0, failed0, calls, synced, failed);
        TracedNext(hs, touched, touchedLogs, rest, h, calls0, synced0, recorded);
        hs := hs + [h];
        if !settled { recorded := recorded + set l | l in touchedLogs[t]; }
        rest := rest - {t};
      }
      TracedRecorded(hs, touched, touchedLogs, calls, synced, recorded);
      return true, hs;
    }

    /** A whole batch on a fresh object, with the checkpoint as it was read, if it could be. The
        batch throws exactly if it could not or if a failed row cannot be recorded. When it does
        not, every token with touched logs is synced and each (token, address) they mention was
        reconciled exactly once, with the latest timestamp mentioning it, or its touched logs are
        all in failed_events; when nothing fails the former. */
    method ProcessTransferLogs(inputs: seq<Input>, read: Option<int>) returns (ok: bool, ghost hs: seq<Handling>)
      requires touched == map[] && touchedLogs == map[] && calls == [] && failed == {} && synced == {} && records == 0
      modifies this
      ensures ok <==> read.Some? && Recorded(0, records)
      ensures read.None? ==> calls == [] && failed == {} && synced == {}
      ensures ok ==>
                forall t :: TouchedOf(inputs, read.value, t) != [] ==>
                  || (t in synced && ExactlyOnce(inputs, read.value, calls, t))
                  || Records(failed, TouchedOf(inputs, read.value, t))
      ensures ok ==> forall t :: TouchedOf(inputs, read.value, t) == [] ==> Reconciled(calls, t) == multiset{}
      ensures ok ==> Collected(touched, touchedLogs, inputs, read.value)
                     && Traced(hs, touched, touchedLogs, {}, calls, synced, RecordedBy(hs, touchedLogs))
                     && failed == Thrown(inputs) + RecordedBy(hs, touchedLogs)
      ensures ok && AllGoesWell() ==>
                && failed == Thrown(inputs)
                && forall t :: TouchedOf(inputs, read.value, t) != [] ==> t in synced && ExactlyOnce(inputs, read.value, calls, t)
    {
      hs := [];
      if read.None? {
        return false, hs;
      }
      var checkpoint := read.value;
      ok := Collect(inputs, checkpoint);
      if !ok {
        return;
      }
      hide Collected, Traced, Handled, Thrown, RecordedBy, AllSettled, TouchedOf, ExactlyOnce, Records, Reconciled;
      SameTokens(touched, touchedLogs, inputs, checkpoint);
      ok, hs := ReconcileAll();
      if ok {
        BatchHandled(touched, touchedLogs, inputs, checkpoint, calls, synced, failed);
      }
    }
  }
}
