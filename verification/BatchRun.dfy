/** The batch step of the transfer lane, as code, is a run of the settlement state machine: a batch
    that does not throw, with nothing else running in between, is a sequence of the machine's lane
    steps with the same effect on the event, failed-event and token tables.
 */
module BatchRun {
  import opened Wrappers
  import opened Settlement
  import T = Touched

  // ----- logs of the code as logs of the machine

  /** Addresses are compared in lower case; `name` numbers them. */
  function LogOf(name: string -> nat, l: T.Transfer, kind: Kind): Log {
    Log(l.key, 0, l.block, l.token, name(T.Lower(l.from)), name(T.Lower(l.to)), kind)
  }

  function KindOf(fate: T.Fate): Kind {
    match fate
    case Undecodable => Undecodable
    case SkippedToken => SkippedToken
    case _ => Transfer
  }

  function InputLog(name: string -> nat, x: T.Input): Log {
    LogOf(name, x.log, KindOf(x.fate))
  }

  function InputLogs(name: string -> nat, inputs: seq<T.Input>): seq<Log> {
    seq(|inputs|, i requires 0 <= i < |inputs| => InputLog(name, inputs[i]))
  }

  function Rows(name: string -> nat, logs: set<T.Transfer>): set<Log> {
    set l | l in logs :: LogOf(name, l, Transfer)
  }

  function TouchedLogs(name: string -> nat, inputs: seq<T.Input>, checkpoint: int): set<Log> {
    set x | x in inputs && T.IsTouched(x, checkpoint) :: InputLog(name, x)
  }

  function ThrownLogs(name: string -> nat, inputs: seq<T.Input>): set<Log> {
    set x | x in inputs && x.fate.InsertThrows? :: InputLog(name, x)
  }

  function EventsAfter(name: string -> nat, events: set<Log>, x: T.Input): set<Log> {
    if x.fate.Stored? || (x.fate.InsertThrows? && x.fate.committed) then events + {InputLog(name, x)} else events
  }

  function EventsOver(name: string -> nat, events: set<Log>, inputs: seq<T.Input>): set<Log>
    decreases |inputs|
  {
    if inputs == [] then events else EventsOver(name, EventsAfter(name, events, inputs[0]), inputs[1..])
  }

  /** What the inserts report agrees with the event rows. */
  predicate Reported(name: string -> nat, events: set<Log>, inputs: seq<T.Input>)
    decreases |inputs|
  {
    inputs != [] ==>
      && (inputs[0].fate.Stored? ==> (inputs[0].fate.isNew <==> InputLog(name, inputs[0]) !in events))
      && Reported(name, EventsAfter(name, events, inputs[0]), inputs[1..])
  }

  // ----- runs of the lane

  ghost predicate OnlyLane(events: seq<Event>) {
    forall i :: 0 <= i < |events| ==> events[i].OfLane? && !events[i].step.LaneThrows?
  }

  /** The lane alone, without an error it does not handle, can go from one state to the other. */
  ghost predicate Reaches(c: Config, s: State, s': State) {
    exists events :: OnlyLane(events) && Run(c, s, events) == s'
  }

  lemma {:induction false} RunConcat(c: Config, s: State, events: seq<Event>, more: seq<Event>)
    ensures Run(c, s, events + more) == Run(c, Run(c, s, events), more)
    decreases |events|
  {
    if events == [] {
      assert events + more == more;
    } else {
      assert (events + more)[0] == events[0] && (events + more)[1..] == events[1..] + more;
      RunConcat(c, Step(c, s, events[0]), events[1..], more);
    }
  }

  lemma Stays(c: Config, s: State)
    ensures Reaches(c, s, s)
  {
    assert OnlyLane([]) && Run(c, s, []) == s;
  }

  lemma Takes(c: Config, s: State, e: LaneEvent)
    requires !e.LaneThrows?
    ensures Reaches(c, s, LaneStep(c, s, e))
  {
    hide LaneStep;
    var events := [OfLane(e)];
    assert Run(c, s, events) == Run(c, Step(c, s, events[0]), events[1..]) && events[1..] == [];
    assert OnlyLane(events);
  }

  lemma Joins(c: Config, s: State, s': State, s'': State)
    requires Reaches(c, s, s') && Reaches(c, s', s'')
    ensures Reaches(c, s, s'')
  {
    hide Run;
    var events :| OnlyLane(events) && Run(c, s, events) == s';
    var more :| OnlyLane(more) && Run(c, s', more) == s'';
    RunConcat(c, s, events, more);
    assert OnlyLane(events + more);
  }

  lemma Then(c: Config, s: State, s': State, e: LaneEvent)
    requires Reaches(c, s, s') && !e.LaneThrows?
    ensures Reaches(c, s, LaneStep(c, s', e))
  {
    hide LaneStep, Reaches;
    Takes(c, s', e);
    Joins(c, s, s', LaneStep(c, s', e));
  }

  // ----- the first pass

  lemma InsertOne(c: Config, name: string -> nat, s: State, b: Batch, x: T.Input, rest: seq<Log>)
    requires s.lane == Inserting(b, [InputLog(name, x)] + rest)
    requires x.fate.Stored? ==> (x.fate.isNew <==> InputLog(name, x) !in s.events)
    ensures Reaches(c, s, s.(events := EventsAfter(name, s.events, x),
                             failed := if x.fate.InsertThrows? then s.failed + {InputLog(name, x)} else s.failed,
                             lane := Inserting(if T.IsTouched(x, b.seen) then b.(touched := b.touched + {InputLog(name, x)}) else b, rest)))
  {
    hide Reaches;
    assert s.lane.todo[1..] == rest;
    Takes(c, s, if x.fate.InsertThrows? then InsertFails(x.fate.committed) else InsertNext);
  }

  lemma SplitFirst(name: string -> nat, inputs: seq<T.Input>, checkpoint: int)
    requires inputs != []
    ensures InputLogs(name, inputs) == [InputLog(name, inputs[0])] + InputLogs(name, inputs[1..])
    ensures var x := inputs[0];
            && TouchedLogs(name, inputs, checkpoint)
               == (if T.IsTouched(x, checkpoint) then {InputLog(name, x)} else {}) + TouchedLogs(name, inputs[1..], checkpoint)
            && ThrownLogs(name, inputs)
               == (if x.fate.InsertThrows? then {InputLog(name, x)} else {}) + ThrownLogs(name, inputs[1..])
  {
    hide InputLog;
    assert forall y :: y in inputs <==> y == inputs[0] || y in inputs[1..];
  }

  lemma {:induction false} InsertPass(c: Config, name: string -> nat, s: State, b: Batch, inputs: seq<T.Input>)
    requires s.lane == Inserting(b, InputLogs(name, inputs)) && Reported(name, s.events, inputs)
    ensures Reaches(c, s, s.(events := EventsOver(name, s.events, inputs), failed := s.failed + ThrownLogs(name, inputs),
                             lane := Inserting(b.(touched := b.touched + TouchedLogs(name, inputs, b.seen)), [])))
    decreases |inputs|
  {
    if inputs == [] {
      assert s.failed + ThrownLogs(name, inputs) == s.failed && b.touched + TouchedLogs(name, inputs, b.seen) == b.touched;
      Stays(c, s);
    } else {
      var x, rest := inputs[0], inputs[1..];
      SplitFirst(name, inputs, b.seen);
      hide Reaches, InputLog, InputLogs, ThrownLogs, TouchedLogs;
      InsertOne(c, name, s, b, x, InputLogs(name, rest));
      var b' := if T.IsTouched(x, b.seen) then b.(touched := b.touched + {InputLog(name, x)}) else b;
      var s' := s.(events := EventsAfter(name, s.events, x),
                   failed := if x.fate.InsertThrows? then s.failed + {InputLog(name, x)} else s.failed,
                   lane := Inserting(b', InputLogs(name, rest)));
      InsertPass(c, name, s', b', rest);
      assert s'.failed + ThrownLogs(name, rest) == s.failed + ThrownLogs(name, inputs);
      assert b'.touched + TouchedLogs(name, rest, b.seen) == b.touched + TouchedLogs(name, inputs, b.seen);
      Joins(c, s, s', s'.(events := EventsOver(name, s.events, inputs), failed := s.failed + ThrownLogs(name, inputs),
                          lane := Inserting(b.(touched := b.touched + TouchedLogs(name, inputs, b.seen)), [])));
    }
  }

  // ----- one reconcile call, and the calls of a token

  /** All of the database but the balances. */
  ghost predicate SameTables(s: State, s': State) {
    s'.head == s.head && s'.checkpoint == s.checkpoint && s'.events == s.events && s'.failed == s.failed
    && s'.counted == s.counted && s'.retry == s.retry
  }

  lemma StoreTables(c: Config, s: State, t: Token, a: Address, height: nat)
    ensures SameTables(s, Store(c, s, t, a, height)) && Store(c, s, t, a, height).lane == s.lane
  {
  }

  lemma ReadOne(c: Config, s: State, a: Address) returns (s': State)
    requires s.lane.Reconciling? && a in s.lane.call.unread
    ensures Reaches(c, s, s') && SameTables(s, s')
    ensures s'.lane == s.lane.(call := Read(s.lane.call, a, s.head))
  {
    hide Reaches;
    s' := CallStep(c, s, LaneRead(a));
    Takes(c, s, LaneRead(a));
  }

  lemma VisitOne(c: Config, s: State, a: Address) returns (s': State)
    requires s.lane.Reconciling? && CanVisit(s.lane.call, a)
    ensures Reaches(c, s, s') && SameTables(s, s')
    ensures s'.lane == s.lane.(call := s.lane.call.(read := s.lane.call.read - {a}))
  {
    hide Reaches, Store;
    s' := CallStep(c, s, LaneVisit(a));
    StoreTables(c, s, s.lane.token, a, s.lane.call.read[a]);
    Takes(c, s, LaneVisit(a));
  }

  lemma EndCall(c: Config, s: State) returns (s': State)
    requires s.lane.Reconciling? && Finished(s.lane.call)
    ensures Reaches(c, s, s') && SameTables(s, s')
    ensures s'.lane == Grouping(s.lane.batch, s.lane.tokens, s.lane.token, s.lane.left)
  {
    hide Reaches;
    s' := CallStep(c, s, GroupDone);
    Takes(c, s, GroupDone);
  }

  lemma CallPass(c: Config, s: State) returns (s': State)
    requires s.lane.Reconciling?
    ensures Reaches(c, s, s') && SameTables(s, s')
    ensures s'.lane == Grouping(s.lane.batch, s.lane.tokens, s.lane.token, s.lane.left)
    decreases |s.lane.call.unread|, |s.lane.call.read|
  {
    hide Reaches;
    var call := s.lane.call;
    if call.unread != {} {
      var a :| a in call.unread;
      var s1 := ReadOne(c, s, a);
      s' := CallPass(c, s1);
      Joins(c, s, s1, s');
    } else if call.read != map[] {
      var a :| a in call.read;
      FewerReads(call.read, a);
      var s1 := VisitOne(c, s, a);
      s' := CallPass(c, s1);
      Joins(c, s, s1, s');
    } else {
      s' := EndCall(c, s);
    }
  }

  lemma FewerReads(read: map<Address, nat>, a: Address)
    requires a in read
    ensures |read - {a}| < |read|
  {
    assert (read - {a}).Keys == read.Keys - {a};
  }

  /** Groups that take addresses out of `left` one after the other. */
  predicate Peels(left: set<Address>, groups: seq<set<Address>>) {
    groups != [] ==> groups[0] != {} && groups[0] <= left && Peels(left - groups[0], groups[1..])
  }

  function Rest(left: set<Address>, groups: seq<set<Address>>): set<Address> {
    if groups == [] then left else Rest(left - groups[0], groups[1..])
  }

  lemma StartPass(c: Config, s: State, group: set<Address>) returns (s': State)
    requires s.lane.Grouping? && group != {} && group <= s.lane.left
    ensures Reaches(c, s, s') && s'.lane.Reconciling? && SameTables(EnsureToken(s, s.lane.token), s')
    ensures var Grouping(b, tokens, t, left) := s.lane;
            s'.lane.batch == b && s'.lane.tokens == tokens && s'.lane.token == t && s'.lane.left == left - group
  {
    s' := GroupStep(s, StartGroup(group));
    Takes(c, s, StartGroup(group));
  }

  lemma {:induction false} GroupsPass(c: Config, s: State, groups: seq<set<Address>>) returns (s': State)
    requires s.lane.Grouping? && Peels(s.lane.left, groups)
    ensures Reaches(c, s, s')
    ensures s'.lane == Grouping(s.lane.batch, s.lane.tokens, s.lane.token, Rest(s.lane.left, groups))
    ensures SameTables(if groups == [] then s else EnsureToken(s, s.lane.token), s')
    decreases |groups|
  {
    if groups == [] {
      s' := s;
      Stays(c, s);
    } else {
      hide Reaches;
      var s1 := StartPass(c, s, groups[0]);
      var s2 := CallPass(c, s1);
      s' := GroupsPass(c, s2, groups[1..]);
      Joins(c, s, s1, s2);
      Joins(c, s, s2, s');
    }
  }

  lemma {:induction false} RecordPass(c: Config, s: State) returns (s': State)
    requires s.lane.Recording?
    ensures var Recording(b, tokens, t, logs, thenSync) := s.lane;
            s' == s.(failed := s.failed + logs,
                     lane := if thenSync then Syncing(b, tokens, t, true) else Choosing(b, tokens - {t}))
    ensures Reaches(c, s, s')
    decreases |s.lane.logs|
  {
    hide Reaches;
    if s.lane.logs == {} {
      s' := RecordStep(s, RecordsDone);
      assert s.failed + s.lane.logs == s.failed;
      Takes(c, s, RecordsDone);
    } else {
      var l :| l in s.lane.logs;
      var s1 := RecordStep(s, RecordNext(l));
      Takes(c, s, RecordNext(l));
      s' := RecordPass(c, s1);
      assert s1.failed + s1.lane.logs == s.failed + s.lane.logs;
      Joins(c, s, s1, s');
    }
  }

  /** Wherever it fails, a token's touched logs are all recorded and its sync is tried all the same. */
  lemma FailPass(c: Config, s: State) returns (s': State)
    requires s.lane.Grouping? || s.lane.Reconciling?
    ensures Reaches(c, s, s') && s'.lane == Syncing(s.lane.batch, s.lane.tokens, s.lane.token, true)
    ensures s' == s.(failed := s.failed + OfToken(s.lane.batch.touched, s.lane.token), lane := s'.lane)
  {
    hide Reaches, OfToken;
    var s1 := LaneStep(c, s, ReconcileFails);
    Takes(c, s, ReconcileFails);
    s' := RecordPass(c, s1);
    Joins(c, s, s1, s');
  }

  // ----- the groups of the code

  function Names(name: string -> nat, addresses: seq<string>): set<Address> {
    set a | a in addresses :: name(a)
  }

  function KeyNames(name: string -> nat, byAddress: map<string, nat>): set<Address> {
    set a | a in byAddress :: name(a)
  }

  function GroupNames(name: string -> nat, groups: seq<(nat, seq<string>)>): seq<set<Address>> {
    seq(|groups|, i requires 0 <= i < |groups| => Names(name, groups[i].1))
  }

  ghost predicate Injective(name: string -> nat) {
    forall a, b :: name(a) == name(b) ==> a == b
  }

  lemma {:induction false} InPairs(addresses: seq<string>, ts: nat, p: (string, nat))
    ensures p in T.Pairs(addresses, ts) <==> p.0 in addresses && p.1 == ts
  {
    if addresses != [] {
      var n := |addresses| - 1;
      InPairs(addresses[..n], ts, p);
      assert addresses == addresses[..n] + [addresses[n]];
    }
  }

  lemma OnlyOnce(m: map<string, nat>, addresses: seq<string>, ts: nat, a: string)
    requires T.Pairs(addresses + [a], ts) <= multiset(m.Items)
    ensures a !in addresses && a in m && m[a] == ts && T.Pairs(addresses, ts) <= multiset(m.Items)
  {
    T.PairsAppend(addresses, a, ts);
    InPairs(addresses, ts, (a, ts));
    assert T.Pairs(addresses + [a], ts)[(a, ts)] == T.Pairs(addresses, ts)[(a, ts)] + 1;
    assert multiset(m.Items)[(a, ts)] <= 1;
    assert (a, ts) in m.Items;
  }

  /** Addresses with their common time, taken out of a map, leave the rest of it. */
  lemma {:induction false} TakeOut(addresses: seq<string>, ts: nat, m: map<string, nat>)
    requires T.Pairs(addresses, ts) <= multiset(m.Items)
    ensures forall a :: a in addresses ==> a in m
    ensures multiset(m.Items) == T.Pairs(addresses, ts) + multiset((m - set a | a in addresses).Items)
  {
    if addresses == [] {
      assert m - (set a | a in addresses) == m;
    } else {
      var n := |addresses| - 1;
      var front, last := addresses[..n], addresses[n];
      assert addresses == front + [last];
      hide T.Pairs;
      OnlyOnce(m, front, ts, last);
      TakeOut(front, ts, m);
      var rest := m - set a | a in front;
      T.RemoveItem(rest, last);
      T.PairsAppend(front, last, ts);
      assert rest - {last} == m - set a | a in addresses;
    }
  }

  /** Taking the first group out of the map leaves the map of the other groups. */
  lemma Peel(groups: seq<(nat, seq<string>)>, m: map<string, nat>)
    requires groups != [] && T.Flatten(groups) == multiset(m.Items)
    ensures forall a :: a in groups[0].1 ==> a in m
    ensures T.Flatten(groups[1..]) == multiset((m - set a | a in groups[0].1).Items)
  {
    var pairs, others := T.Pairs(groups[0].1, groups[0].0), T.Flatten(groups[1..]);
    assert multiset(m.Items) == pairs + others;
    hide T.Flatten, T.Pairs;
    TakeOut(groups[0].1, groups[0].0, m);
    assert others == (pairs + others) - pairs;
    var rest := multiset((m - set a | a in groups[0].1).Items);
    assert rest == (pairs + rest) - pairs;
  }

  lemma HasItem(m: map<string, nat>)
    ensures m != map[] ==> multiset(m.Items) != multiset{}
  {
    if m != map[] {
      var a :| a in m;
      assert (a, m[a]) in multiset(m.Items);
    }
  }

  lemma {:induction false} GroupsPeel(name: string -> nat, groups: seq<(nat, seq<string>)>, m: map<string, nat>)
    requires Injective(name) && T.Flatten(groups) == multiset(m.Items) && T.NoneEmpty(groups)
    ensures Peels(KeyNames(name, m), GroupNames(name, groups)) && Rest(KeyNames(name, m), GroupNames(name, groups)) == {}
    decreases |groups|
  {
    if groups == [] {
      HasItem(m);
    } else {
      Peel(groups, m);
      hide T.Flatten;
      var rest := m - set a | a in groups[0].1;
      GroupsPeel(name, groups[1..], rest);
      assert GroupNames(name, groups)[0] == Names(name, groups[0].1);
      assert GroupNames(name, groups)[1..] == GroupNames(name, groups[1..]);
      assert name(groups[0].1[0]) in Names(name, groups[0].1);
      assert KeyNames(name, rest) == KeyNames(name, m) - Names(name, groups[0].1);
    }
  }

  lemma {:induction false} PeelsPart(left: set<Address>, groups: seq<set<Address>>, n: nat)
    requires Peels(left, groups) && n <= |groups|
    ensures Peels(left, groups[..n])
    ensures n < |groups| ==> groups[n] != {} && groups[n] <= Rest(left, groups[..n])
    decreases n
  {
    if n > 0 {
      PeelsPart(left - groups[0], groups[1..], n - 1);
      assert groups[..n][0] == groups[0] && groups[..n][1..] == groups[1..][..n - 1];
    }
  }

  // ----- one token

  ghost predicate AtToken(s: State, b: Batch, tokens: set<Token>, t: Token) {
    s.lane == Choosing(b, tokens) && t in tokens
  }

  /** The calls of a token up to the last one made, which may fail. */
  lemma MadePass(c: Config, s: State, name: string -> nat, h: T.Handling, m: map<string, nat>) returns (s': State)
    requires s.lane.Grouping? && s.lane.left == KeyNames(name, m) && h.token == s.lane.token
    requires Injective(name) && T.HandlingOk(h, m) && h.made > 0
    ensures Reaches(c, s, s') && SameTables(EnsureToken(s, h.token), s')
    ensures var Grouping(b, tokens, t, left) := s.lane;
            if h.callsOk then s'.lane == Grouping(b, tokens, t, {})
            else s'.lane.Reconciling? && s'.lane.batch == b && s'.lane.tokens == tokens && s'.lane.token == t
  {
    var groups := GroupNames(name, h.groups);
    GroupsPeel(name, h.groups, m);
    hide Reaches, T.Flatten, T.NoneEmpty;
    if h.callsOk {
      s' := GroupsPass(c, s, groups);
    } else {
      PeelsPart(s.lane.left, groups, h.made - 1);
      var s1 := GroupsPass(c, s, groups[..h.made - 1]);
      s' := StartPass(c, s1, groups[h.made - 1]);
      Joins(c, s, s1, s');
    }
  }

  lemma CallsPass(c: Config, s: State, name: string -> nat, h: T.Handling, m: map<string, nat>, b: Batch, tokens: set<Token>)
    returns (s': State)
    requires AtToken(s, b, tokens, h.token) && AddressesOf(b.touched, h.token) == KeyNames(name, m)
    requires Injective(name) && T.HandlingOk(h, m) && h.made > 0
    ensures Reaches(c, s, s') && s'.lane == Syncing(b, tokens, h.token, !h.callsOk)
    ensures SameTables(EnsureToken(s, h.token).(failed := if h.callsOk then s.failed else s.failed + OfToken(b.touched, h.token)), s')
  {
    hide Reaches, T.HandlingOk, Injective, KeyNames, OfToken;
    var s1 := ChooseStep(s, ChooseToken(h.token));
    Takes(c, s, ChooseToken(h.token));
    var s2 := MadePass(c, s1, name, h, m);
    Joins(c, s, s1, s2);
    if h.callsOk {
      s' := GroupStep(s2, GroupsDone);
      Then(c, s, s2, GroupsDone);
    } else {
      var s3 := CallStep(c, s2, ReconcileFails);
      Then(c, s, s2, ReconcileFails);
      s' := RecordPass(c, s3);
      Joins(c, s, s3, s');
    }
  }

  lemma SyncPass(c: Config, s: State, synced: bool) returns (s': State)
    requires s.lane.Syncing? && s.lane.token in s.counted
    ensures var Syncing(b, tokens, t, failed) := s.lane;
            s' == s.(failed := if synced || failed then s.failed else s.failed + OfToken(b.touched, t),
                     counted := if synced then s.counted[t := OfToken(s.events, t)] else s.counted,
                     lane := Choosing(b, tokens - {t}))
    ensures Reaches(c, s, s')
  {
    hide Reaches, OfToken;
    if synced {
      s' := SyncStep(s, SyncToken);
      Takes(c, s, SyncToken);
    } else {
      var s1 := SyncStep(s, SyncFails(false));
      Takes(c, s, SyncFails(false));
      if s.lane.failed {
        s' := s1;
      } else {
        s' := RecordPass(c, s1);
        Joins(c, s, s1, s');
      }
    }
  }

  /** What handling a token leaves in the tokens table. */
  function CountedBy(s: State, h: T.Handling): map<Token, set<Log>> {
    s.counted[h.token := if h.syncOk then OfToken(s.events, h.token)
                         else if h.token in s.counted then s.counted[h.token] else {}]
  }

  lemma TokenPass(c: Config, s: State, name: string -> nat, h: T.Handling, m: map<string, nat>, b: Batch, tokens: set<Token>)
    returns (s': State)
    requires AtToken(s, b, tokens, h.token) && AddressesOf(b.touched, h.token) == KeyNames(name, m)
    requires Injective(name) && T.HandlingOk(h, m) && h.made > 0
    ensures Reaches(c, s, s') && s'.lane == Choosing(b, tokens - {h.token})
    ensures SameTables(s.(failed := if T.SettledBy(h) then s.failed else s.failed + OfToken(b.touched, h.token),
                          counted := CountedBy(s, h)), s')
  {
    hide Reaches, T.HandlingOk, Injective, KeyNames, OfToken, AddressesOf;
    var s1 := CallsPass(c, s, name, h, m, b, tokens);
    s' := SyncPass(c, s1, h.syncOk);
    Joins(c, s, s1, s');
  }

  // ----- all tokens

  function Tokens(hs: seq<T.Handling>): set<Token> {
    set h | h in hs :: h.token
  }

  function Unsettled(hs: seq<T.Handling>): set<Token> {
    set h | h in hs && !T.SettledBy(h) :: h.token
  }

  function LogsOf(touched: set<Log>, tokens: set<Token>): set<Log> {
    set l | l in touched && l.token in tokens
  }

  /** The stored counts of the handled tokens, and of no other, are those their handling leaves. */
  ghost predicate Counts(s: State, hs: seq<T.Handling>, counted: map<Token, set<Log>>) {
    && (forall h :: h in hs ==> h.token in counted && counted[h.token] == CountedBy(s, h)[h.token])
    && (forall t :: t !in Tokens(hs) ==> (t in counted <==> t in s.counted) && (t in counted ==> counted[t] == s.counted[t]))
  }

  ghost predicate Handlings(name: string -> nat, hs: seq<T.Handling>, touched: T.Times, b: Batch) {
    && (forall i :: 0 <= i < |hs| ==>
                      && hs[i].token in touched && touched[hs[i].token] != map[] && T.HandlingOk(hs[i], touched[hs[i].token])
                      && AddressesOf(b.touched, hs[i].token) == KeyNames(name, touched[hs[i].token]))
    && (forall i, j :: 0 <= i < j < |hs| ==> hs[i].token != hs[j].token)
  }

  lemma MadeSome(h: T.Handling, m: map<string, nat>)
    requires T.HandlingOk(h, m) && m != map[]
    ensures h.made > 0
  {
    HasItem(m);
  }

  lemma LastHandling(hs: seq<T.Handling>, touched: set<Log>)
    requires hs != []
    ensures var front, h := hs[..|hs| - 1], hs[|hs| - 1];
            && Tokens(hs) == Tokens(front) + {h.token}
            && LogsOf(touched, Unsettled(hs))
               == LogsOf(touched, Unsettled(front)) + (if T.SettledBy(h) then {} else OfToken(touched, h.token))
            && forall x :: x in hs <==> x in front || x == h
  {
    var front, h := hs[..|hs| - 1], hs[|hs| - 1];
    assert hs == front + [h];
    assert Unsettled(hs) == Unsettled(front) + if T.SettledBy(h) then {} else {h.token};
  }

  lemma CountsNext(s: State, s1: State, hs: seq<T.Handling>, h: T.Handling, all: seq<T.Handling>)
    requires Counts(s, hs, s1.counted) && s1.events == s.events && h.token !in Tokens(hs)
    requires Tokens(all) == Tokens(hs) + {h.token} && forall x :: x in all <==> x in hs || x == h
    ensures Counts(s, all, CountedBy(s1, h))
  {
    forall x | x in hs ensures x.token in Tokens(hs) { }
  }

  lemma NoHandlings(s: State, touched: set<Log>)
    ensures Tokens([]) == {} && LogsOf(touched, Unsettled([])) == {} && Counts(s, [], s.counted)
  {
  }

  lemma FrontHandlings(name: string -> nat, hs: seq<T.Handling>, touched: T.Times, b: Batch)
    requires hs != [] && Handlings(name, hs, touched, b)
    ensures var front, h := hs[..|hs| - 1], hs[|hs| - 1];
            && Handlings(name, front, touched, b) && h.token !in Tokens(front)
            && h.token in touched && T.HandlingOk(h, touched[h.token]) && h.made > 0
            && AddressesOf(b.touched, h.token) == KeyNames(name, touched[h.token])
  {
    hide AddressesOf, KeyNames;
    var h := hs[|hs| - 1];
    MadeSome(h, touched[h.token]);
  }

  lemma {:induction false} TokensPass(c: Config, s: State, name: string -> nat, hs: seq<T.Handling>, touched: T.Times,
                                      b: Batch, tokens: set<Token>) returns (s': State)
    requires s.lane == Choosing(b, tokens) && Injective(name) && Handlings(name, hs, touched, b) && Tokens(hs) <= tokens
    ensures Reaches(c, s, s') && s'.lane == Choosing(b, tokens - Tokens(hs)) && Counts(s, hs, s'.counted)
    ensures SameTables(s.(failed := s.failed + LogsOf(b.touched, Unsettled(hs)), counted := s'.counted), s')
    decreases |hs|
  {
    hide Reaches, T.HandlingOk, Injective, KeyNames, AddressesOf, Counts, Tokens, Unsettled, LogsOf, CountedBy, OfToken, Handlings;
    if hs == [] {
      s' := s;
      Stays(c, s);
      NoHandlings(s, b.touched);
    } else {
      var front, h := hs[..|hs| - 1], hs[|hs| - 1];
      LastHandling(hs, b.touched);
      FrontHandlings(name, hs, touched, b);
      var s1 := TokensPass(c, s, name, front, touched, b, tokens);
      s' := TokenPass(c, s1, name, h, touched[h.token], b, tokens - Tokens(front));
      CountsNext(s, s1, front, h, hs);
      Joins(c, s, s1, s');
      assert tokens - Tokens(front) - {h.token} == tokens - Tokens(hs);
      assert s'.failed == s.failed + LogsOf(b.touched, Unsettled(hs));
    }
  }

  // ----- the batch

  lemma {:induction false} TouchedMember(inputs: seq<T.Input>, checkpoint: int, t: Token, l: T.Transfer)
    ensures l in T.TouchedOf(inputs, checkpoint, t) <==>
              exists x :: x in inputs && T.IsTouched(x, checkpoint) && x.log.token == t && x.log == l
  {
    if inputs != [] {
      var front, last := inputs[..|inputs| - 1], inputs[|inputs| - 1];
      TouchedMember(front, checkpoint, t, l);
      assert inputs == front + [last];
    }
  }

  /** What the first pass collects, as the machine sees it. */
  lemma CollectedTokens(name: string -> nat, touched: T.Times, logs: map<Token, seq<T.Transfer>>, inputs: seq<T.Input>, checkpoint: int)
    requires T.Collected(touched, logs, inputs, checkpoint)
    ensures TokensOf(TouchedLogs(name, inputs, checkpoint)) == touched.Keys
    ensures forall t :: t in touched ==> touched[t] != map[]
  {
    hide T.IsLatest, T.TouchedOf, T.Lower;
    var all := TouchedLogs(name, inputs, checkpoint);
    forall t | t in touched ensures t in TokensOf(all) && touched[t] != map[] {
      var l := logs[t][0];
      assert l in T.TouchedOf(inputs, checkpoint, t);
      TouchedMember(inputs, checkpoint, t, l);
      var x :| x in inputs && T.IsTouched(x, checkpoint) && x.log.token == t && x.log == l;
      assert InputLog(name, x) in all && InputLog(name, x).token == t;
      assert T.Mentions(x, checkpoint, t, T.Lower(x.log.from));
      assert T.Has(touched, t, T.Lower(x.log.from));
    }
    forall t | t in TokensOf(all) ensures t in touched {
      var x :| x in inputs && T.IsTouched(x, checkpoint) && InputLog(name, x).token == t;
      assert T.Mentions(x, checkpoint, t, T.Lower(x.log.from));
      assert T.Has(touched, t, T.Lower(x.log.from));
    }
  }

  lemma CollectedAddresses(name: string -> nat, touched: T.Times, inputs: seq<T.Input>, checkpoint: int, t: Token)
    requires T.TimesOk(touched, inputs, checkpoint) && t in touched
    ensures AddressesOf(TouchedLogs(name, inputs, checkpoint), t) == KeyNames(name, touched[t])
  {
    hide T.Lower;
    var all := TouchedLogs(name, inputs, checkpoint);
    forall n | n in AddressesOf(all, t) ensures n in KeyNames(name, touched[t]) {
      var l :| l in all && l.token == t && (l.from == n || l.to == n);
      var x :| x in inputs && T.IsTouched(x, checkpoint) && InputLog(name, x) == l;
      var a := if l.from == n then T.Lower(x.log.from) else T.Lower(x.log.to);
      assert T.Mentions(x, checkpoint, t, a);
      assert T.Has(touched, t, a) && name(a) == n;
    }
    forall n | n in KeyNames(name, touched[t]) ensures n in AddressesOf(all, t) {
      var a :| a in touched[t] && name(a) == n;
      assert T.Has(touched, t, a);
      assert T.IsLatest(inputs, checkpoint, t, a, touched[t][a]);
      var x :| x in inputs && T.Mentions(x, checkpoint, t, a);
      assert InputLog(name, x) in all && InputLog(name, x).token == t;
    }
  }

  lemma RowsThrown(name: string -> nat, inputs: seq<T.Input>)
    ensures Rows(name, T.Thrown(inputs)) == ThrownLogs(name, inputs)
  {
    forall x | x in inputs && x.fate.InsertThrows?
      ensures InputLog(name, x) == LogOf(name, x.log, Transfer) && x.log in T.Thrown(inputs)
    {
    }
    hide LogOf;
    forall r | r in Rows(name, T.Thrown(inputs)) ensures r in ThrownLogs(name, inputs) {
      var l :| l in T.Thrown(inputs) && r == LogOf(name, l, Transfer);
      var x :| x in inputs && x.fate.InsertThrows? && x.log == l;
      assert InputLog(name, x) == r;
    }
  }

  lemma RowsRecorded(name: string -> nat, hs: seq<T.Handling>, logs: map<Token, seq<T.Transfer>>, inputs: seq<T.Input>, checkpoint: int)
    requires T.LogsOk(logs, inputs, checkpoint) && forall h :: h in hs ==> h.token in logs
    ensures Rows(name, T.RecordedBy(hs, logs)) == LogsOf(TouchedLogs(name, inputs, checkpoint), Unsettled(hs))
  {
    hide T.TouchedOf, T.Lower, T.SettledBy;
    var all := TouchedLogs(name, inputs, checkpoint);
    forall r | r in Rows(name, T.RecordedBy(hs, logs)) ensures r in LogsOf(all, Unsettled(hs)) {
      var l :| l in T.RecordedBy(hs, logs) && r == LogOf(name, l, Transfer);
      var h :| h in hs && !T.SettledBy(h) && h.token in logs && l in logs[h.token];
      TouchedMember(inputs, checkpoint, h.token, l);
      var x :| x in inputs && T.IsTouched(x, checkpoint) && x.log.token == h.token && x.log == l;
      assert InputLog(name, x) == r;
    }
    forall r | r in LogsOf(all, Unsettled(hs)) ensures r in Rows(name, T.RecordedBy(hs, logs)) {
      var x :| x in inputs && T.IsTouched(x, checkpoint) && InputLog(name, x) == r;
      var h :| h in hs && !T.SettledBy(h) && h.token == r.token;
      TouchedMember(inputs, checkpoint, h.token, x.log);
      assert x.log in T.RecordedBy(hs, logs) && r == LogOf(name, x.log, Transfer);
    }
  }

  lemma TracedTokens(hs: seq<T.Handling>, touched: T.Times, logs: map<Token, seq<T.Transfer>>, calls: seq<T.Call>,
                     synced: set<Token>, recorded: set<T.Transfer>)
    requires T.Traced(hs, touched, logs, {}, calls, synced, recorded)
    ensures Tokens(hs) == touched.Keys
  {
    hide T.HandlingOk, T.AllCalls, T.SyncedBy, T.RecordedBy;
    forall t | t in touched ensures t in Tokens(hs) {
      var i :| 0 <= i < |hs| && hs[i].token == t;
      assert hs[i] in hs;
    }
    forall h | h in hs ensures h.token in touched {
      var i :| 0 <= i < |hs| && hs[i] == h;
    }
  }

  lemma TracedSynced(hs: seq<T.Handling>, touched: T.Times, logs: map<Token, seq<T.Transfer>>, calls: seq<T.Call>,
                     synced: set<Token>, recorded: set<T.Transfer>, h: T.Handling)
    requires T.Traced(hs, touched, logs, {}, calls, synced, recorded) && h in hs
    ensures h.syncOk <==> h.token in synced
  {
    hide T.HandlingOk, T.AllCalls, T.RecordedBy;
    if h.token in synced {
      var i :| 0 <= i < |hs| && hs[i] == h;
      var g :| g in hs && g.syncOk && g.token == h.token;
      var j :| 0 <= j < |hs| && hs[j] == g;
      assert i == j;
    }
  }

  lemma TracedEach(name: string -> nat, hs: seq<T.Handling>, touched: T.Times, logs: map<Token, seq<T.Transfer>>, b: Batch,
                   calls: seq<T.Call>, synced: set<Token>, recorded: set<T.Transfer>)
    requires T.Traced(hs, touched, logs, {}, calls, synced, recorded)
    requires forall t :: t in touched ==> touched[t] != map[] && AddressesOf(b.touched, t) == KeyNames(name, touched[t])
    ensures Handlings(name, hs, touched, b)
  {
    hide T.HandlingOk, T.AllCalls, T.SyncedBy, T.RecordedBy, AddressesOf, KeyNames;
  }

  lemma TracedHandlings(name: string -> nat, hs: seq<T.Handling>, touched: T.Times, logs: map<Token, seq<T.Transfer>>,
                        inputs: seq<T.Input>, b: Batch, calls: seq<T.Call>, synced: set<Token>)
    requires T.Collected(touched, logs, inputs, b.seen) && b.touched == TouchedLogs(name, inputs, b.seen)
    requires T.Traced(hs, touched, logs, {}, calls, synced, T.RecordedBy(hs, logs))
    ensures Handlings(name, hs, touched, b) && Tokens(hs) == touched.Keys == TokensOf(b.touched)
    ensures Rows(name, T.RecordedBy(hs, logs)) == LogsOf(b.touched, Unsettled(hs))
    ensures forall h :: h in hs ==> (h.syncOk <==> h.token in synced)
  {
    hide T.LogsOk, T.TimesOk, TouchedLogs, AddressesOf, KeyNames, Rows, LogsOf, TokensOf, T.RecordedBy, T.Traced, Handlings, Unsettled;
    CollectedTokens(name, touched, logs, inputs, b.seen);
    TracedTokens(hs, touched, logs, calls, synced, T.RecordedBy(hs, logs));
    forall h | h in hs ensures h.token in logs && (h.syncOk <==> h.token in synced) {
      TracedSynced(hs, touched, logs, calls, synced, T.RecordedBy(hs, logs), h);
      assert h.token in Tokens(hs);
    }
    RowsRecorded(name, hs, logs, inputs, b.seen);
    forall t | t in touched ensures AddressesOf(b.touched, t) == KeyNames(name, touched[t]) {
      CollectedAddresses(name, touched, inputs, b.seen, t);
    }
    TracedEach(name, hs, touched, logs, b, calls, synced, T.RecordedBy(hs, logs));
  }

  /** What a batch leaves behind: the lane has no token left to do, the event rows are those
      inserted, the failed rows those thrown or recorded, and the stored counts of the synced tokens
      cover all their event rows. */
  ghost predicate Done(name: string -> nat, s: State, s': State, b: Batch, inputs: seq<T.Input>,
                       failed: set<T.Transfer>, tokens: set<Token>, synced: set<Token>) {
    && s'.lane == Choosing(b.(touched := TouchedLogs(name, inputs, b.seen)), {})
    && s'.head == s.head && s'.checkpoint == s.checkpoint && s'.retry == s.retry
    && s'.events == EventsOver(name, s.events, inputs) && s'.failed == s.failed + Rows(name, failed)
    && (forall t :: t in tokens ==> t in s'.counted && (t in synced ==> s'.counted[t] == OfToken(s'.events, t)))
    && (forall t :: t !in synced && t in s.counted ==> t in s'.counted && s'.counted[t] == s.counted[t])
  }

  lemma CountsDone(s: State, hs: seq<T.Handling>, counted: map<Token, set<Log>>, tokens: set<Token>, synced: set<Token>)
    requires Counts(s, hs, counted) && Tokens(hs) == tokens && forall h :: h in hs ==> (h.syncOk <==> h.token in synced)
    ensures forall t :: t in tokens ==> t in counted && (t in synced ==> counted[t] == OfToken(s.events, t))
    ensures forall t :: t !in synced && t in s.counted ==> t in counted && counted[t] == s.counted[t]
  {
    hide OfToken;
    forall t | t in tokens ensures exists h :: h in hs && h.token == t { }
  }

  lemma RowsJoin(name: string -> nat, a: set<T.Transfer>, b: set<T.Transfer>)
    ensures Rows(name, a + b) == Rows(name, a) + Rows(name, b)
  {
  }

  /** A batch that ran to its end is a run of the machine's lane. */
  lemma BatchIsRun(c: Config, name: string -> nat, s: State, b: Batch, inputs: seq<T.Input>, touched: T.Times,
                   logs: map<Token, seq<T.Transfer>>, hs: seq<T.Handling>, calls: seq<T.Call>, synced: set<Token>)
    returns (s': State)
    requires Injective(name) && s.lane == Inserting(b, InputLogs(name, inputs)) && b.touched == {}
    requires Reported(name, s.events, inputs) && T.Collected(touched, logs, inputs, b.seen)
    requires T.Traced(hs, touched, logs, {}, calls, synced, T.RecordedBy(hs, logs))
    ensures Reaches(c, s, s') && Done(name, s, s', b, inputs, T.Thrown(inputs) + T.RecordedBy(hs, logs), touched.Keys, synced)
  {
    hide Reaches, Injective, T.Collected, T.Traced, T.RecordedBy, T.Thrown, TouchedLogs, ThrownLogs, Rows, LogsOf, Tokens,
         Unsettled, Handlings, Counts, EventsOver, Reported, InputLogs, OfToken;
    InsertPass(c, name, s, b, inputs);
    var b' := b.(touched := TouchedLogs(name, inputs, b.seen));
    assert b.touched + TouchedLogs(name, inputs, b.seen) == b'.touched;
    var s1 := s.(events := EventsOver(name, s.events, inputs), failed := s.failed + ThrownLogs(name, inputs),
                 lane := Inserting(b', []));
    TracedHandlings(name, hs, touched, logs, inputs, b', calls, synced);
    Then(c, s, s1, InsertsDone);
    var s2 := s1.(lane := Choosing(b', touched.Keys));
    s' := TokensPass(c, s2, name, hs, touched, b', touched.Keys);
    Joins(c, s, s2, s');
    CountsDone(s2, hs, s'.counted, touched.Keys, synced);
    RowsThrown(name, inputs);
    RowsJoin(name, T.Thrown(inputs), T.RecordedBy(hs, logs));
    assert s'.failed == s.failed + Rows(name, T.Thrown(inputs) + T.RecordedBy(hs, logs));
  }

  /** What a whole batch over [.., hi] leaves behind: the lane is idle and the checkpoint is at the
      batch's end, or where it was if that is further. */
  ghost predicate Completed(name: string -> nat, s: State, s': State, hi: nat, inputs: seq<T.Input>,
                            failed: set<T.Transfer>, tokens: set<Token>, synced: set<Token>) {
    && s'.lane == Idle && s'.checkpoint == (if s.checkpoint < hi then hi else s.checkpoint)
    && s'.head == s.head && s'.retry == s.retry
    && s'.events == EventsOver(name, s.events, inputs) && s'.failed == s.failed + Rows(name, failed)
    && (forall t :: t in tokens ==> t in s'.counted && (t in synced ==> s'.counted[t] == OfToken(s'.events, t)))
    && (forall t :: t !in synced && t in s.counted ==> t in s'.counted && s'.counted[t] == s.counted[t])
  }

  /** The machine can start any range it admits and, once no token is left, sets the checkpoint. */
  lemma Starts(c: Config, s: State, lo: nat, hi: nat, logs: seq<Log>)
    requires s.lane == Idle && RangeAllowed(c.startBlock, s.checkpoint, lo, hi) && hi <= Confirmed(c, s.head)
    requires CompleteAnswer(c, lo, hi, logs)
    ensures Reaches(c, s, s.(lane := Inserting(Batch(lo, hi, s.checkpoint, {}), logs)))
  {
    hide Reaches;
    Takes(c, s, StartBatch(lo, hi, logs));
  }

  lemma Finishes(c: Config, name: string -> nat, s: State, s1: State, s2: State, b: Batch, inputs: seq<T.Input>,
                 failed: set<T.Transfer>, tokens: set<Token>, synced: set<Token>) returns (s': State)
    requires s1 == s.(lane := Inserting(b, InputLogs(name, inputs))) && Reaches(c, s, s2)
    requires Done(name, s1, s2, b, inputs, failed, tokens, synced)
    ensures Reaches(c, s, s') && Completed(name, s, s', b.hi, inputs, failed, tokens, synced)
  {
    hide Reaches, EventsOver, Rows, OfToken;
    s' := ChooseStep(s2, SetCheckpoint);
    Then(c, s, s2, SetCheckpoint);
  }

  /** The batch method beside the machine: from any state in which the lane may fetch the range, and
      whatever the outside answers, a batch that does not throw is a run of the lane from the start
      of the batch to the checkpoint it sets. */
  method ProcessBeside(batch: T.TransferBatch, inputs: seq<T.Input>, read: Option<int>,
                       ghost c: Config, ghost name: string -> nat, ghost s: State, ghost lo: nat, ghost hi: nat)
    returns (ok: bool, ghost s': State)
    requires batch.touched == map[] && batch.touchedLogs == map[] && batch.calls == [] && batch.failed == {}
             && batch.synced == {} && batch.records == 0
    requires Injective(name) && s.lane == Idle && RangeAllowed(c.startBlock, s.checkpoint, lo, hi) && hi <= Confirmed(c, s.head)
    requires CompleteAnswer(c, lo, hi, InputLogs(name, inputs)) && Reported(name, s.events, inputs)
    requires read.Some? ==> read.value == s.checkpoint
    modifies batch
    ensures ok <==> read.Some? && batch.Recorded(0, batch.records)
    ensures ok ==> Reaches(c, s, s') && Completed(name, s, s', hi, inputs, batch.failed, batch.touched.Keys, batch.synced)
  {
    hide Reaches, Injective, T.Collected, T.Traced, T.RecordedBy, T.Thrown, Done, Completed, Reported, T.Records, T.ExactlyOnce,
         T.TouchedOf, T.Reconciled, InputLogs, CompleteAnswer, RangeAllowed;
    ghost var hs;
    ok, hs := batch.ProcessTransferLogs(inputs, read);
    s' := s;
    if ok {
      ghost var b := Batch(lo, hi, s.checkpoint, {});
      ghost var s1 := s.(lane := Inserting(b, InputLogs(name, inputs)));
      Starts(c, s, lo, hi, InputLogs(name, inputs));
      ghost var s2 := BatchIsRun(c, name, s1, b, inputs, batch.touched, batch.touchedLogs, hs, batch.calls, batch.synced);
      Joins(c, s, s1, s2);
      s' := Finishes(c, name, s, s1, s2, b, inputs, batch.failed, batch.touched.Keys, batch.synced);
    }
  }
}
