/** The retry job does its work: from any state of the settlement machine in which it rests, its own
    steps, none of which fails, settle any failed transfer and clear any other failed row.
 */
module RetryRun {
  import opened Settlement
  import BatchRun

  ghost predicate OnlyRetry(events: seq<Event>) {
    forall i :: 0 <= i < |events| ==> events[i].OfRetry? && !events[i].act.RetryFails?
  }

  /** The retry job alone, without an error, can go from one state to the other. */
  ghost predicate Reaches(c: Config, s: State, s': State) {
    exists events :: OnlyRetry(events) && Run(c, s, events) == s'
  }

  lemma Takes(c: Config, s: State, e: RetryEvent)
    requires !e.RetryFails?
    ensures Reaches(c, s, RetryStep(c, s, e))
  {
    hide RetryStep;
    var events := [OfRetry(e)];
    assert Run(c, s, events) == Run(c, Step(c, s, events[0]), events[1..]) && events[1..] == [];
    assert OnlyRetry(events);
  }

  lemma Joins(c: Config, s: State, s': State, s'': State)
    requires Reaches(c, s, s') && Reaches(c, s', s'')
    ensures Reaches(c, s, s'')
  {
    hide Run;
    var events :| OnlyRetry(events) && Run(c, s, events) == s';
    var more :| OnlyRetry(more) && Run(c, s', more) == s'';
    BatchRun.RunConcat(c, s, events, more);
    assert OnlyRetry(events + more);
  }

  lemma Then(c: Config, s: State, s': State, e: RetryEvent)
    requires Reaches(c, s, s') && !e.RetryFails?
    ensures Reaches(c, s, RetryStep(c, s', e))
  {
    hide RetryStep, Reaches;
    Takes(c, s', e);
    Joins(c, s, s', RetryStep(c, s', e));
  }

  /** All of the state but the balances and the retry job. */
  ghost predicate SameRest(s: State, s': State) {
    s'.head == s.head && s'.checkpoint == s.checkpoint && s'.events == s.events && s'.failed == s.failed
    && s'.counted == s.counted && s'.lane == s.lane
  }

  lemma StoreRest(c: Config, s: State, t: Token, a: Address, height: nat)
    ensures SameRest(s, Store(c, s, t, a, height)) && Store(c, s, t, a, height).retry == s.retry
  {
  }

  lemma ReadOne(c: Config, s: State, a: Address) returns (s': State)
    requires s.retry.Refreshing? && a in s.retry.call.unread
    ensures Reaches(c, s, s') && SameRest(s, s') && s'.retry == Refreshing(s.retry.log, Read(s.retry.call, a, s.head))
  {
    hide Reaches;
    s' := RetryStep(c, s, RetryRead(a));
    Takes(c, s, RetryRead(a));
  }

  lemma VisitOne(c: Config, s: State, a: Address) returns (s': State)
    requires s.retry.Refreshing? && CanVisit(s.retry.call, a)
    ensures Reaches(c, s, s') && SameRest(s, s')
    ensures s'.retry == Refreshing(s.retry.log, s.retry.call.(read := s.retry.call.read - {a}))
  {
    hide Reaches, Store;
    s' := RetryStep(c, s, RetryVisit(a));
    StoreRest(c, s, s.retry.log.token, a, s.retry.call.read[a]);
    Takes(c, s, RetryVisit(a));
  }

  lemma RefreshPass(c: Config, s: State) returns (s': State)
    requires s.retry.Refreshing?
    ensures Reaches(c, s, s') && SameRest(s, s') && s'.retry == Counting(s.retry.log)
    decreases |s.retry.call.unread|, |s.retry.call.read|
  {
    hide Reaches, Store;
    var call := s.retry.call;
    if call.unread != {} {
      var a :| a in call.unread;
      var s1 := ReadOne(c, s, a);
      hide RetryStep;
      s' := RefreshPass(c, s1);
      Joins(c, s, s1, s');
    } else if call.read != map[] {
      var a :| a in call.read;
      BatchRun.FewerReads(call.read, a);
      var s1 := VisitOne(c, s, a);
      hide RetryStep;
      s' := RefreshPass(c, s1);
      Joins(c, s, s1, s');
    } else {
      s' := RetryStep(c, s, RetryReconciled);
      Takes(c, s, RetryReconciled);
    }
  }

  /** Up to the refresh: the event row is inserted and the token row is there. */
  lemma ReplayPass(c: Config, s: State, l: Log) returns (s': State)
    requires s.retry == Resting && l in s.failed && l.kind == Transfer
    ensures Reaches(c, s, s') && s'.retry.Refreshing? && s'.retry.log == l
    ensures SameRest(EnsureToken(s.(events := s.events + {l}), l.token), s')
  {
    hide Reaches;
    var s1 := s.(retry := Replaying(l));
    Takes(c, s, RetryStart(l));
    var s2 := s1.(events := s.events + {l}, retry := Replayed(l));
    Then(c, s, s1, RetryInsert);
    s' := RetryStep(c, s2, RetryEnsure);
    Then(c, s, s2, RetryEnsure);
  }

  /** The retried state before its failed row is deleted. */
  lemma CountPass(c: Config, s: State, l: Log) returns (s': State)
    requires s.retry == Resting && l in s.failed && l.kind == Transfer
    ensures Reaches(c, s, s') && s'.retry == Deleting(l)
    ensures s'.head == s.head && s'.checkpoint == s.checkpoint && s'.lane == s.lane && s'.failed == s.failed
    ensures s'.events == s.events + {l}
    ensures s'.counted == s.counted[l.token := OfToken(s.events + {l}, l.token)]
  {
    hide Reaches, OfToken;
    var s1 := ReplayPass(c, s, l);
    var s2 := RefreshPass(c, s1);
    Joins(c, s, s1, s2);
    s' := RetryStep(c, s2, RetrySync);
    Then(c, s, s2, RetrySync);
  }

  lemma {:induction false} InvKept(c: Config, s: State, s': State)
    requires Inv(c, s) && Reaches(c, s, s')
    ensures Inv(c, s')
  {
    var events :| OnlyRetry(events) && Run(c, s, events) == s';
    RunKeeps(c, s, events);
  }

  lemma DeletedSettled(s: State, l: Log, failed: set<Log>)
    requires Settled(s, l)
    ensures Settled(s.(failed := failed, retry := Resting), l)
  {
    assert forall t, a, block :: Fresh(s, t, a, block) ==> Fresh(s.(failed := failed, retry := Resting), t, a, block);
  }

  /** Whatever the lane is doing, a failed transfer can be retried to the end: its row is gone, its
      event is there, its balances are fresh and its token's count covers every event row. */
  lemma RetrySettles(c: Config, s: State, l: Log) returns (s': State)
    requires Inv(c, s) && s.retry == Resting && l in s.failed && l.kind == Transfer
    ensures Reaches(c, s, s') && s'.retry == Resting && Settled(s', l)
    ensures s'.failed == s.failed - {l} && s'.events == s.events + {l} && s'.lane == s.lane && s'.checkpoint == s.checkpoint
    ensures s'.counted == s.counted[l.token := OfToken(s'.events, l.token)]
  {
    hide Reaches, Inv, OfToken, Settled;
    var s1 := CountPass(c, s, l);
    InvKept(c, s, s1);
    SettledThen(c, s1, l);
    DeletedSettled(s1, l, s1.failed - {l});
    s' := RetryStep(c, s1, RetryDelete);
    Then(c, s, s1, RetryDelete);
  }

  lemma SettledThen(c: Config, s: State, l: Log)
    requires Inv(c, s) && s.retry == Deleting(l) && l.kind == Transfer
    ensures Settled(s, l)
  {
  }

  /** A failed row that is no transfer of a tracked token is deleted and nothing else happens. */
  lemma RetryClears(c: Config, s: State, l: Log)
    requires s.retry == Resting && l in s.failed && l.kind != Transfer
    ensures Reaches(c, s, s.(failed := s.failed - {l}))
  {
    hide Reaches;
    Takes(c, s, RetryStart(l));
    Then(c, s, s.(retry := Deleting(l)), RetryDelete);
  }
}
