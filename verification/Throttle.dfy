/** The export-error throttle: threads count errors in one atomic and, at most once a minute, one
    of them claims the right to report and swaps the count out. Every atomic access is a step of
    its own and the clock may show each thread any time.
 */
module Throttle {
  const INTERVAL_MS := 60_000
  const U64_MAX := 0xFFFF_FFFF_FFFF_FFFF

  datatype Thread =
    | Idle
    | Counted                          // error added to the counter
    | Timed(now: nat)                  // clock read
    | Loaded(now: nat, expected: nat)  // next log time loaded
    | Claimed                          // compare-exchange succeeded
    | Holding(amount: nat)             // counter swapped out, not yet logged

  datatype State = State(
    dropped: nat, nextLog: nat, threads: seq<Thread>,
    errors: nat,        // export errors counted so far
    claims: seq<nat>,   // clock times of successful claims, oldest first
    reports: seq<nat>)  // amounts logged, oldest first

  datatype Event = Count | ReadClock(now: nat) | Load | CompareExchange | Swap | Report

  /** A step of thread i; a step that is not enabled changes nothing. */
  function Step(s: State, i: nat, e: Event): State
    requires i < |s.threads|
  {
    var t := s.threads[i];
    match (t, e)
    case (Idle, Count) =>
      s.(dropped := s.dropped + 1, errors := s.errors + 1, threads := s.threads[i := Counted])
    case (Counted, ReadClock(now)) =>
      if now + INTERVAL_MS <= U64_MAX then s.(threads := s.threads[i := Timed(now)]) else s
    case (Timed(now), Load) => s.(threads := s.threads[i := Loaded(now, s.nextLog)])
    case (Loaded(now, expected), CompareExchange) =>
      if now >= expected && s.nextLog == expected
      then s.(nextLog := now + INTERVAL_MS, claims := s.claims + [now], threads := s.threads[i := Claimed])
      else s.(threads := s.threads[i := Idle])
    case (Claimed, Swap) => s.(dropped := 0, threads := s.threads[i := Holding(s.dropped)])
    case (Holding(amount), Report) => s.(reports := s.reports + [amount], threads := s.threads[i := Idle])
    case _ => s
  }

  function Start(n: nat): State {
    State(0, 0, seq(n, _ => Idle), 0, [], [])
  }

  datatype Action = Action(thread: nat, event: Event)

  /** The state after a schedule of n threads; an action of no thread is skipped. */
  function Run(n: nat, schedule: seq<Action>): (s: State)
    ensures |s.threads| == n
  {
    if schedule == [] then Start(n)
    else
      var s, a := Run(n, schedule[..|schedule| - 1]), schedule[|schedule| - 1];
      if a.thread < n then Step(s, a.thread, a.event) else s
  }

  function Sum(xs: seq<nat>): nat {
    if xs == [] then 0 else Sum(xs[..|xs| - 1]) + xs[|xs| - 1]
  }

  function Held(t: Thread): nat {
    if t.Holding? then t.amount else 0
  }

  function HeldSum(threads: seq<Thread>): nat {
    if threads == [] then 0 else HeldSum(threads[..|threads| - 1]) + Held(threads[|threads| - 1])
  }

  lemma {:induction false} HeldUpdate(threads: seq<Thread>, i: nat, t: Thread)
    requires i < |threads|
    ensures HeldSum(threads[i := t]) == HeldSum(threads) - Held(threads[i]) + Held(t)
  {
    var n := |threads| - 1;
    if i < n {
      HeldUpdate(threads[..n], i, t);
      assert threads[i := t][..n] == threads[..n][i := t];
    } else {
      assert threads[i := t][..n] == threads[..n];
    }
  }

  lemma {:induction false} HeldNone(n: nat)
    ensures HeldSum(seq(n, _ => Idle)) == 0
  {
    if n > 0 {
      HeldNone(n - 1);
      assert seq(n, _ => Idle)[..n - 1] == seq(n - 1, _ => Idle);
    }
  }

  ghost predicate Spaced(claims: seq<nat>) {
    forall i :: 0 < i < |claims| ==> claims[i - 1] + INTERVAL_MS <= claims[i]
  }

  ghost predicate Balanced(s: State) {
    s.errors == Sum(s.reports) + s.dropped + HeldSum(s.threads)
  }

  ghost predicate Timely(s: State) {
    && Spaced(s.claims)
    && s.nextLog == (if s.claims == [] then 0 else s.claims[|s.claims| - 1] + INTERVAL_MS)
  }

  ghost predicate Inv(s: State) {
    Balanced(s) && Timely(s)
  }

  lemma SumAppend(xs: seq<nat>, x: nat)
    ensures Sum(xs + [x]) == Sum(xs) + x
  {
    assert (xs + [x])[..|xs|] == xs;
  }

  lemma StepBalanced(s: State, i: nat, e: Event)
    requires i < |s.threads| && Balanced(s)
    ensures Balanced(Step(s, i, e))
  {
    hide HeldSum, Sum;
    var s' := Step(s, i, e);
    if s' != s {
      HeldUpdate(s.threads, i, s'.threads[i]);
    }
    if s.threads[i].Holding? {
      SumAppend(s.reports, s.threads[i].amount);
    }
  }

  lemma StepTimely(s: State, i: nat, e: Event)
    requires i < |s.threads| && Timely(s)
    ensures Timely(Step(s, i, e)) && s.nextLog <= Step(s, i, e).nextLog
    ensures Step(s, i, e).claims != s.claims ==> s.nextLog < Step(s, i, e).nextLog
  {
  }

  lemma {:induction false} RunKeeps(n: nat, schedule: seq<Action>)
    ensures Inv(Run(n, schedule))
  {
    if schedule == [] {
      HeldNone(n);
    } else {
      var front, a := schedule[..|schedule| - 1], schedule[|schedule| - 1];
      RunKeeps(n, front);
      if a.thread < n {
        StepBalanced(Run(n, front), a.thread, a.event);
        StepTimely(Run(n, front), a.thread, a.event);
      }
    }
  }

  lemma {:induction false} SpacedApart(claims: seq<nat>, i: nat, j: nat)
    requires Spaced(claims) && i <= j < |claims|
    ensures claims[i] + INTERVAL_MS * (j - i) <= claims[j]
    decreases j
  {
    if i < j { SpacedApart(claims, i, j - 1); }
  }

  /** Under every interleaving, any two claims are as many minutes apart as there are claims
      between them: there is never more than one report a minute. */
  lemma ClaimsApart(n: nat, schedule: seq<Action>, i: nat, j: nat)
    requires i <= j < |Run(n, schedule).claims|
    ensures Run(n, schedule).claims[i] + 60_000 * (j - i) <= Run(n, schedule).claims[j]
  {
    RunKeeps(n, schedule);
    SpacedApart(Run(n, schedule).claims, i, j);
  }

  /** Under every interleaving, every counted error is in exactly one place: reported, still in
      the counter, or swapped out by a thread about to log it. */
  lemma NothingLost(n: nat, schedule: seq<Action>)
    ensures var s := Run(n, schedule); s.errors == Sum(s.reports) + s.dropped + HeldSum(s.threads)
  {
    RunKeeps(n, schedule);
  }

  /** The next log time never goes back, and every claim moves it forward. */
  lemma NextLogMonotone(n: nat, schedule: seq<Action>, a: Action)
    ensures var s, s' := Run(n, schedule), Run(n, schedule + [a]);
            s.nextLog <= s'.nextLog && (s'.claims != s.claims ==> s.nextLog < s'.nextLog)
  {
    RunKeeps(n, schedule);
    assert (schedule + [a])[..|schedule|] == schedule;
    if a.thread < n {
      StepTimely(Run(n, schedule), a.thread, a.event);
    }
  }

  /** A step leaves every other thread where it was. */
  lemma OthersStay(n: nat, schedule: seq<Action>, a: Action, i: nat)
    requires i < n && a.thread != i
    ensures Run(n, schedule + [a]).threads[i] == Run(n, schedule).threads[i]
  {
    assert (schedule + [a])[..|schedule|] == schedule;
  }

  lemma {:induction false} WhileWaiting(n: nat, schedule: seq<Action>, others: seq<Action>, i: nat)
    requires i < n && forall k :: 0 <= k < |others| ==> others[k].thread != i
    ensures var s, s' := Run(n, schedule), Run(n, schedule + others);
            && s'.threads[i] == s.threads[i] && s.nextLog <= s'.nextLog
            && (s'.claims != s.claims ==> s.nextLog < s'.nextLog)
    decreases |others|
  {
    if others == [] {
      assert schedule + others == schedule;
    } else {
      hide Run;
      var front, a := others[..|others| - 1], others[|others| - 1];
      assert schedule + others == (schedule + front) + [a];
      WhileWaiting(n, schedule, front, i);
      OthersStay(n, schedule + front, a, i);
      NextLogMonotone(n, schedule + front, a);
    }
  }

  lemma Loads(n: nat, schedule: seq<Action>, i: nat)
    requires i < n && Run(n, schedule).threads[i].Timed?
    ensures var s, s' := Run(n, schedule), Run(n, schedule + [Action(i, Load)]);
            s'.threads[i] == Loaded(s.threads[i].now, s.nextLog) && s'.nextLog == s.nextLog && s'.claims == s.claims
  {
    assert (schedule + [Action(i, Load)])[..|schedule|] == schedule;
  }

  lemma Exchanges(n: nat, schedule: seq<Action>, i: nat)
    requires i < n && Run(n, schedule).threads[i].Loaded?
    ensures var s, t := Run(n, schedule), Run(n, schedule).threads[i];
            Run(n, schedule + [Action(i, CompareExchange)]).claims
            == if t.now >= t.expected && s.nextLog == t.expected then s.claims + [t.now] else s.claims
  {
    assert (schedule + [Action(i, CompareExchange)])[..|schedule|] == schedule;
  }

  /** Whatever the other threads do between a thread's load and its compare-exchange, the thread
      claims exactly if the minute was over when it loaded and nobody has claimed since. */
  lemma ClaimsIffUndisturbed(n: nat, before: seq<Action>, others: seq<Action>, i: nat)
    requires i < n && Run(n, before).threads[i].Timed?
    requires forall k :: 0 <= k < |others| ==> others[k].thread != i
    ensures var s, now := Run(n, before), Run(n, before).threads[i].now;
            var waited := before + [Action(i, Load)] + others;
            var s', s'' := Run(n, waited), Run(n, waited + [Action(i, CompareExchange)]);
            if now >= s.nextLog && s'.claims == s.claims then s''.claims == s.claims + [now] else s''.claims == s'.claims
  {
    hide Run;
    Loads(n, before, i);
    WhileWaiting(n, before + [Action(i, Load)], others, i);
    Exchanges(n, before + [Action(i, Load)] + others, i);
    RunKeeps(n, before + [Action(i, Load)]);
    RunKeeps(n, before + [Action(i, Load)] + others);
  }

  /** An error that is counted once the minute is over, with no other thread in between, is reported
      at once with all that were counted before, and starts the next minute. */
  lemma ReportsAll(n: nat, before: seq<Action>, i: nat, now: nat)
    requires i < n && Run(n, before).threads[i] == Idle
    requires Run(n, before).nextLog <= now <= U64_MAX - 60_000
    ensures var s := Run(n, before);
            var s' := Run(n, before + [Action(i, Count), Action(i, ReadClock(now)), Action(i, Load), Action(i, CompareExchange),
                                       Action(i, Swap), Action(i, Report)]);
            && s'.reports == s.reports + [s.dropped + 1] && s'.dropped == 0 && s'.nextLog == now + 60_000
            && s'.claims == s.claims + [now] && s'.errors == s.errors + 1 && s'.threads == s.threads
  {
    var s := Run(n, before);
    hide Run;
    var s1 := Step(s, i, Count);
    var s2 := Step(s1, i, ReadClock(now));
    var s3 := Step(s2, i, Load);
    var s4 := Step(s3, i, CompareExchange);
    var s5 := Step(s4, i, Swap);
    var s6 := Step(s5, i, Report);
    assert s6.threads == s.threads;
    RunNext(n, before, Action(i, Count));
    var b1 := before + [Action(i, Count)];
    RunNext(n, b1, Action(i, ReadClock(now)));
    var b2 := b1 + [Action(i, ReadClock(now))];
    RunNext(n, b2, Action(i, Load));
    var b3 := b2 + [Action(i, Load)];
    RunNext(n, b3, Action(i, CompareExchange));
    var b4 := b3 + [Action(i, CompareExchange)];
    RunNext(n, b4, Action(i, Swap));
    var b5 := b4 + [Action(i, Swap)];
    RunNext(n, b5, Action(i, Report));
    assert b5 + [Action(i, Report)]
        == before + [Action(i, Count), Action(i, ReadClock(now)), Action(i, Load), Action(i, CompareExchange),
                     Action(i, Swap), Action(i, Report)];
  }

  lemma RunNext(n: nat, schedule: seq<Action>, a: Action)
    requires a.thread < n
    ensures Run(n, schedule + [a]) == Step(Run(n, schedule), a.thread, a.event)
  {
    assert (schedule + [a])[..|schedule|] == schedule;
  }
}
