/** The indexer's transfer lane and its failed-event retry job as one interleaved state machine
    over the database. The lane fetches a block range, inserts its transfer logs, reconciles the
    balances of the addresses they touch, syncs each token's transfer count and only then advances
    the checkpoint. Any await may throw, and the process may crash between any two steps.

    A balance read is represented by the chain height at which it was made, and its amount by what
    the chain answers there. A transfer log on the chain is identified by its transaction and
    index, so it stands for its own database key.
 */
module Settlement {
  type Token = nat
  type Address = nat
  const ZERO_ADDRESS: Address := 0

  datatype Kind = Transfer | Undecodable | SkippedToken
  datatype Log = Log(tx: nat, index: nat, block: nat, token: Token, from: Address, to: Address, kind: Kind)

  /** `initial` is the checkpoint found in the database when the run begins, -1 for none;
      `balance` is what the chain answers for an address at a height. */
  datatype Config = Config(startBlock: nat, confirmations: nat, initial: int, chain: set<Log>,
                           balance: (Token, Address, nat) -> nat)

  /** A reconcile call: all balances are read before the first one is compared with its row. */
  datatype Reconcile = Reconcile(token: Token, unread: set<Address>, read: map<Address, nat>)

  datatype Batch = Batch(lo: nat, hi: nat, seen: int, touched: set<Log>)

  datatype LanePhase =
    | Idle
    | Inserting(batch: Batch, todo: seq<Log>)
    | Choosing(batch: Batch, tokens: set<Token>)
    | Grouping(batch: Batch, tokens: set<Token>, token: Token, left: set<Address>)
    | Reconciling(batch: Batch, tokens: set<Token>, token: Token, left: set<Address>, call: Reconcile)
    | Recording(batch: Batch, tokens: set<Token>, token: Token, logs: set<Log>, thenSync: bool)
    | Syncing(batch: Batch, tokens: set<Token>, token: Token, failed: bool)

  datatype RetryPhase =
    | Resting
    | Replaying(log: Log)
    | Replayed(log: Log)  // its event row is in the database
    | Refreshing(log: Log, call: Reconcile)
    | Counting(log: Log)
    | Deleting(log: Log)

  datatype State = State(
    head: nat,                              // latest block of the chain
    checkpoint: int,                        // -1 for none
    events: set<Log>,                       // rows of events
    failed: set<Log>,                       // rows of failed_events
    counted: map<Token, set<Log>>,          // rows of tokens: the events each stored count covers
    rows: map<(Token, Address), nat>,       // rows of balances
    stored: map<(Token, Address), nat>,     // latest height the row's amount was read at since it was put there
    newest: map<(Token, Address), nat>,     // greatest height a call ever came with
    lane: LanePhase, retry: RetryPhase)

  datatype Event =
    | HeadAdvances(head: nat)
    | OtherInsert(log: Log)  // event rows also come from administrative replays
    | Crash
    | OfLane(step: LaneEvent)
    | OfRetry(act: RetryEvent)

  datatype LaneEvent =
    | StartBatch(lo: nat, hi: nat, logs: seq<Log>)
    | InsertNext
    | InsertFails(committed: bool)
    | InsertsDone
    | ChooseToken(token: Token)
    | StartGroup(group: set<Address>)
    | LaneRead(address: Address)
    | LaneVisit(address: Address)  // compares a balance it read with the row, and stores it if they differ
    | GroupDone
    | GroupsDone
    | ReconcileFails
    | RecordNext(log: Log)
    | RecordsDone
    | SyncToken
    | SyncFails(committed: bool)
    | SetCheckpoint
    | LaneThrows

  datatype RetryEvent =
    | RetryStart(log: Log)
    | RetryInsert
    | RetryEnsure
    | RetryRead(address: Address)
    | RetryVisit(address: Address)
    | RetryReconciled
    | RetrySync
    | RetryDelete
    | RetryFails

  // ----- steps

  function Max(a: int, b: int): int {
    if a < b then b else a
  }

  function Confirmed(c: Config, head: nat): nat {
    Max(0, head - c.confirmations)
  }

  /** A range the lane may fetch: it leaves no gap above the checkpoint. */
  predicate RangeAllowed(startBlock: nat, checkpoint: int, lo: int, hi: int) {
    startBlock <= lo <= hi && lo <= Max(startBlock, checkpoint + 1)
  }

  /** The logs of the range, each once or more, and nothing else. */
  predicate CompleteAnswer(c: Config, lo: nat, hi: nat, logs: seq<Log>) {
    && (forall l :: l in logs ==> l in c.chain && lo <= l.block <= hi)
    && (forall l :: l in c.chain && lo <= l.block <= hi ==> l in logs)
  }

  function Tracked(l: Log): set<Address> {
    {l.from, l.to} - {ZERO_ADDRESS}
  }

  function OfToken(logs: set<Log>, t: Token): set<Log> {
    set l | l in logs && l.token == t
  }

  function TokensOf(logs: set<Log>): set<Token> {
    set l | l in logs :: l.token
  }

  function AddressesOf(logs: set<Log>, t: Token): set<Address> {
    (set l | l in logs && l.token == t :: l.from) + (set l | l in logs && l.token == t :: l.to)
  }

  function EnsureToken(s: State, t: Token): State {
    if t in s.counted then s else s.(counted := s.counted[t := {}])
  }

  /** The count is a single statement over the event rows; it changes nothing without a token row. */
  function Sync(s: State, t: Token): State {
    if t in s.counted then s.(counted := s.counted[t := OfToken(s.events, t)]) else s
  }

  /** The amount of a row; no row stands for zero. */
  function Amount(rows: map<(Token, Address), nat>, k: (Token, Address)): nat {
    if k in rows then rows[k] else 0
  }

  function BalanceAt(c: Config, k: (Token, Address), height: nat): nat {
    c.balance(k.0, k.1, height)
  }

  /** A call comes to a balance it read: the row is left alone if it shows that amount already,
      else it is replaced, or deleted for zero. */
  function Store(c: Config, s: State, t: Token, a: Address, height: nat): State {
    var k := (t, a);
    var amount := BalanceAt(c, k, height);
    var same := Amount(s.rows, k) == amount;
    s.(rows := if same then s.rows else if amount == 0 then s.rows - {k} else s.rows[k := amount],
       stored := s.stored[k := if same && k in s.stored then Max(s.stored[k], height) else height],
       newest := s.newest[k := if k in s.newest then Max(s.newest[k], height) else height])
  }

  function Begin(t: Token, addresses: set<Address>): Reconcile {
    Reconcile(t, addresses - {ZERO_ADDRESS}, map[])
  }

  function Read(call: Reconcile, a: Address, head: nat): Reconcile {
    if a in call.unread then call.(unread := call.unread - {a}, read := call.read[a := head]) else call
  }

  predicate CanVisit(call: Reconcile, a: Address) {
    call.unread == {} && a in call.read
  }

  predicate Finished(call: Reconcile) {
    call.unread == {} && call.read == map[]
  }

  function IdleStep(c: Config, s: State, e: LaneEvent): State {
    match e
    case StartBatch(lo, hi, logs) =>
      if RangeAllowed(c.startBlock, s.checkpoint, lo, hi) && hi <= Confirmed(c, s.head) && CompleteAnswer(c, lo, hi, logs)
      then s.(lane := Inserting(Batch(lo, hi, s.checkpoint, {}), logs)) else s
    case _ => s
  }

  function InsertStep(s: State, e: LaneEvent): State
    requires s.lane.Inserting?
  {
    var Inserting(b, todo) := s.lane;
    match e
    case InsertNext =>
      if todo == [] then s
      else if todo[0].kind != Transfer then s.(lane := Inserting(b, todo[1..]))
      else
        var touch := todo[0] !in s.events || todo[0].block > b.seen;
        s.(events := s.events + {todo[0]},
           lane := Inserting(if touch then b.(touched := b.touched + {todo[0]}) else b, todo[1..]))
    case InsertFails(committed) =>
      if todo == [] || todo[0].kind != Transfer then s
      else s.(events := if committed then s.events + {todo[0]} else s.events,
              failed := s.failed + {todo[0]}, lane := Inserting(b, todo[1..]))
    case InsertsDone =>
      if todo == [] then s.(lane := Choosing(b, TokensOf(b.touched))) else s
    case _ => s
  }

  function ChooseStep(s: State, e: LaneEvent): State
    requires s.lane.Choosing?
  {
    var Choosing(b, tokens) := s.lane;
    match e
    case ChooseToken(t) =>
      if t in tokens then s.(lane := Grouping(b, tokens, t, AddressesOf(b.touched, t))) else s
    case SetCheckpoint =>
      if tokens == {} then s.(checkpoint := Max(s.checkpoint, b.hi), lane := Idle) else s
    case _ => s
  }

  /** The addresses of a token are reconciled in groups, one call each. */
  function GroupStep(s: State, e: LaneEvent): State
    requires s.lane.Grouping?
  {
    var Grouping(b, tokens, t, left) := s.lane;
    match e
    case StartGroup(group) =>
      if group <= left && group != {}
      then EnsureToken(s, t).(lane := Reconciling(b, tokens, t, left - group, Begin(t, group))) else s
    case GroupsDone => if left == {} then s.(lane := Syncing(b, tokens, t, false)) else s
    case ReconcileFails => s.(lane := Recording(b, tokens, t, OfToken(b.touched, t), true))
    case _ => s
  }

  function CallStep(c: Config, s: State, e: LaneEvent): State
    requires s.lane.Reconciling?
  {
    var Reconciling(b, tokens, t, left, call) := s.lane;
    match e
    case LaneRead(a) => s.(lane := s.lane.(call := Read(call, a, s.head)))
    case LaneVisit(a) =>
      if CanVisit(call, a)
      then Store(c, s, t, a, call.read[a]).(lane := s.lane.(call := call.(read := call.read - {a}))) else s
    case GroupDone => if Finished(call) then s.(lane := Grouping(b, tokens, t, left)) else s
    case ReconcileFails => s.(lane := Recording(b, tokens, t, OfToken(b.touched, t), true))
    case _ => s
  }

  function RecordStep(s: State, e: LaneEvent): State
    requires s.lane.Recording?
  {
    var Recording(b, tokens, t, logs, thenSync) := s.lane;
    match e
    case RecordNext(l) =>
      if l in logs then s.(failed := s.failed + {l}, lane := s.lane.(logs := logs - {l})) else s
    case RecordsDone =>
      if logs != {} then s
      else s.(lane := if thenSync then Syncing(b, tokens, t, true) else Choosing(b, tokens - {t}))
    case _ => s
  }

  function SyncStep(s: State, e: LaneEvent): State
    requires s.lane.Syncing?
  {
    var Syncing(b, tokens, t, failed) := s.lane;
    match e
    case SyncToken => Sync(s, t).(lane := Choosing(b, tokens - {t}))
    case SyncFails(committed) =>
      (if committed then Sync(s, t) else s).(
        lane := if failed then Choosing(b, tokens - {t}) else Recording(b, tokens, t, OfToken(b.touched, t), false))
    case _ => s
  }

  function LaneStep(c: Config, s: State, e: LaneEvent): State {
    if e.LaneThrows? then s.(lane := Idle) else
    match s.lane
    case Idle => IdleStep(c, s, e)
    case Inserting(_, _) => InsertStep(s, e)
    case Choosing(_, _) => ChooseStep(s, e)
    case Grouping(_, _, _, _) => GroupStep(s, e)
    case Reconciling(_, _, _, _, _) => CallStep(c, s, e)
    case Recording(_, _, _, _, _) => RecordStep(s, e)
    case Syncing(_, _, _, _) => SyncStep(s, e)
  }

  function RetryStep(c: Config, s: State, e: RetryEvent): State {
    match (s.retry, e)
    case (Resting, RetryStart(l)) =>
      if l !in s.failed then s
      else if l.kind == Transfer then s.(retry := Replaying(l)) else s.(retry := Deleting(l))
    case (Replaying(l), RetryInsert) => s.(events := s.events + {l}, retry := Replayed(l))
    case (Replayed(l), RetryEnsure) =>
      EnsureToken(s, l.token).(retry := Refreshing(l, Begin(l.token, {l.from, l.to})))
    case (Refreshing(l, call), RetryRead(a)) => s.(retry := Refreshing(l, Read(call, a, s.head)))
    case (Refreshing(l, call), RetryVisit(a)) =>
      if CanVisit(call, a)
      then Store(c, s, l.token, a, call.read[a]).(retry := Refreshing(l, call.(read := call.read - {a}))) else s
    case (Refreshing(l, call), RetryReconciled) =>
      if Finished(call) then s.(retry := Counting(l)) else s
    case (Counting(l), RetrySync) => Sync(s, l.token).(retry := Deleting(l))
    case (Deleting(l), RetryDelete) => s.(failed := s.failed - {l}, retry := Resting)
    case (_, RetryFails) => s.(retry := Resting)
    case _ => s
  }

  /** One step of the whole system; an event that is not enabled changes nothing. */
  function Step(c: Config, s: State, e: Event): State {
    match e
    case HeadAdvances(h) => s.(head := Max(s.head, h))
    case OtherInsert(l) => s.(events := s.events + {l})
    case Crash => s.(lane := Idle, retry := Resting)
    case OfLane(step) => LaneStep(c, s, step)
    case OfRetry(act) => RetryStep(c, s, act)
  }

  function Start(c: Config): State {
    State(0, c.initial, {}, {}, map[], map[], map[], map[], Idle, Resting)
  }

  function Run(c: Config, s: State, events: seq<Event>): State
    decreases |events|
  {
    if events == [] then s else Run(c, Step(c, s, events[0]), events[1..])
  }

  function After(c: Config, events: seq<Event>): State {
    Run(c, Start(c), events)
  }

  // ----- what it means for a log to be accounted for

  predicate Fresh(s: State, t: Token, a: Address, block: nat) {
    (t, a) in s.newest && s.newest[(t, a)] >= block
  }

  /** Inserted, both addresses' balances stored (or found stored) as of a chain state that includes
      the log, and the token's stored count covers it. */
  predicate Settled(s: State, l: Log) {
    && l in s.events
    && (forall a :: a in Tracked(l) ==> Fresh(s, l.token, a, l.block))
    && l.token in s.counted && l in s.counted[l.token]
  }

  predicate Accounted(s: State, l: Log) {
    l in s.failed || Settled(s, l)
  }

  /** The transfer logs this run is answerable for. */
  predicate Due(c: Config, l: Log) {
    l in c.chain && l.kind == Transfer && c.startBlock <= l.block && c.initial < l.block
  }

  ghost predicate Covered(c: Config, s: State) {
    forall l :: Due(c, l) && l.block <= s.checkpoint ==> Accounted(s, l)
  }

  // ----- invariant

  ghost predicate CallInv(s: State, call: Reconcile) {
    && call.token in s.counted
    && (forall a :: a in call.read ==> call.read[a] <= s.head)
  }

  /** The address is already fresh for the block, or this call will make it so. */
  predicate Promised(s: State, call: Reconcile, a: Address, block: nat) {
    || a in call.unread
    || (a in call.read && call.read[a] >= block)
    || Fresh(s, call.token, a, block)
  }

  ghost predicate BatchInv(c: Config, s: State, b: Batch) {
    && RangeAllowed(c.startBlock, b.seen, b.lo, b.hi) && b.hi <= Confirmed(c, s.head) && b.seen == s.checkpoint
    && (forall l :: l in b.touched ==> l in s.events && l in c.chain && l.kind == Transfer && l.block <= b.hi)
  }

  ghost predicate TokensInv(c: Config, s: State, b: Batch, tokens: set<Token>) {
    && BatchInv(c, s, b) && tokens <= TokensOf(b.touched)
    && forall l :: Due(c, l) && b.lo <= l.block <= b.hi && b.seen < l.block ==>
                     Accounted(s, l) || (l in b.touched && l.token in tokens)
  }

  ghost predicate LaneInv(c: Config, s: State, lane: LanePhase) {
    match lane
    case Idle => true
    case Inserting(b, todo) =>
      && BatchInv(c, s, b)
      && (forall l :: l in todo ==> l in c.chain && l.block <= b.hi)
      && forall l :: Due(c, l) && b.lo <= l.block <= b.hi && b.seen < l.block ==>
                       Accounted(s, l) || l in todo || l in b.touched
    case Choosing(b, tokens) => TokensInv(c, s, b, tokens)
    case Grouping(b, tokens, t, left) =>
      && TokensInv(c, s, b, tokens) && t in tokens
      && (t in s.counted || left != {})
      && forall l, a :: l in b.touched && l.token == t && a in Tracked(l) ==> a in left || Fresh(s, t, a, l.block)
    case Reconciling(b, tokens, t, left, call) =>
      && TokensInv(c, s, b, tokens) && t in tokens && call.token == t && CallInv(s, call)
      && forall l, a :: l in b.touched && l.token == t && a in Tracked(l) ==> a in left || Promised(s, call, a, l.block)
    case Recording(b, tokens, t, logs, thenSync) =>
      && TokensInv(c, s, b, tokens) && t in tokens && logs <= b.touched
      && forall l :: l in b.touched && l.token == t ==> l in logs || Accounted(s, l)
    case Syncing(b, tokens, t, failed) =>
      && TokensInv(c, s, b, tokens) && t in tokens
      && (failed ==> forall l :: l in b.touched && l.token == t ==> Accounted(s, l))
      && (!failed ==>
            && t in s.counted
            && forall l, a :: l in b.touched && l.token == t && a in Tracked(l) ==> Fresh(s, t, a, l.block))
  }

  ghost predicate RetryInv(s: State, retry: RetryPhase) {
    match retry
    case Resting => true
    case Replaying(l) => l.block <= s.head
    case Replayed(l) => l.block <= s.head && l in s.events
    case Refreshing(l, call) =>
      && l.block <= s.head && l in s.events && call.token == l.token && CallInv(s, call)
      && forall a :: a in Tracked(l) ==> Promised(s, call, a, l.block)
    case Counting(l) =>
      && l in s.events && l.token in s.counted
      && forall a :: a in Tracked(l) ==> Fresh(s, l.token, a, l.block)
    case Deleting(l) => l.kind == Transfer ==> Settled(s, l)
  }

  ghost predicate DataInv(c: Config, s: State) {
    && c.initial <= s.checkpoint <= Max(c.initial, Confirmed(c, s.head))
    && (forall t :: t in s.counted ==> s.counted[t] <= OfToken(s.events, t))
    && (forall l :: l in s.failed ==> l.block <= s.head)
    && (forall k :: k in s.newest ==> s.newest[k] <= s.head)
    && s.stored.Keys == s.newest.Keys
  }

  ghost predicate Inv(c: Config, s: State) {
    DataInv(c, s) && Covered(c, s) && LaneInv(c, s, s.lane) && RetryInv(s, s.retry)
  }

  // ----- the database only grows, apart from failed rows that are settled

  ghost predicate Grows(s: State, s': State) {
    && s.head <= s'.head && s.checkpoint == s'.checkpoint && s.events <= s'.events
    && (forall t :: t in s.counted ==> t in s'.counted && s.counted[t] <= s'.counted[t])
    && (forall k :: k in s.newest ==> k in s'.newest && s.newest[k] <= s'.newest[k])
    && (forall l :: l in s.failed ==> l in s'.failed || Settled(s', l) || l.kind != Transfer)
  }

  lemma FreshGrows(s: State, s': State, t: Token, a: Address, block: nat)
    requires Grows(s, s') && Fresh(s, t, a, block)
    ensures Fresh(s', t, a, block)
  {
    assert (t, a) in s.newest;
  }

  lemma AccountedGrows(s: State, s': State, l: Log)
    requires Grows(s, s') && Accounted(s, l) && l.kind == Transfer
    ensures Accounted(s', l)
  {
    if l !in s.failed {
      forall a | a in Tracked(l) ensures Fresh(s', l.token, a, l.block) { FreshGrows(s, s', l.token, a, l.block); }
    }
  }

  lemma AllGrows(s: State, s': State)
    requires Grows(s, s')
    ensures forall l :: Accounted(s, l) && l.kind == Transfer ==> Accounted(s', l)
    ensures forall t, a, block :: Fresh(s, t, a, block) ==> Fresh(s', t, a, block)
  {
    forall l | Accounted(s, l) && l.kind == Transfer ensures Accounted(s', l) { AccountedGrows(s, s', l); }
    forall t, a, block | Fresh(s, t, a, block) ensures Fresh(s', t, a, block) { FreshGrows(s, s', t, a, block); }
  }

  lemma LaneGrows(c: Config, s: State, s': State, lane: LanePhase)
    requires Grows(s, s') && LaneInv(c, s, lane)
    ensures LaneInv(c, s', lane)
  {
    AllGrows(s, s');
    hide Accounted, Fresh, Tracked;
  }

  lemma RetryGrows(s: State, s': State, retry: RetryPhase)
    requires Grows(s, s') && RetryInv(s, retry)
    ensures RetryInv(s', retry)
  {
    AllGrows(s, s');
  }

  lemma CoveredGrows(c: Config, s: State, s': State)
    requires Grows(s, s') && Covered(c, s)
    ensures Covered(c, s')
  {
    AllGrows(s, s');
    hide Accounted;
  }

  // ----- every step grows the data

  lemma StoreGrows(c: Config, s: State, t: Token, a: Address, height: nat)
    requires DataInv(c, s) && height <= s.head
    ensures Grows(s, Store(c, s, t, a, height)) && DataInv(c, Store(c, s, t, a, height))
    ensures forall block: nat :: block <= height ==> Fresh(Store(c, s, t, a, height), t, a, block)
  {
  }

  lemma SyncGrows(c: Config, s: State, t: Token)
    requires DataInv(c, s)
    ensures Grows(s, Sync(s, t)) && DataInv(c, Sync(s, t))
  {
  }

  lemma SameGrows(s: State)
    ensures Grows(s, s)
  {
  }

  lemma EventGrows(c: Config, s: State, l: Log)
    requires DataInv(c, s)
    ensures var s' := s.(events := s.events + {l}); Grows(s, s') && DataInv(c, s')
  {
  }

  lemma InsertGrows(c: Config, s: State, events: set<Log>, failed: set<Log>)
    requires DataInv(c, s) && s.events <= events && s.failed <= failed && forall l :: l in failed ==> l.block <= s.head
    ensures var s' := s.(events := events, failed := failed); Grows(s, s') && DataInv(c, s')
  {
  }

  lemma EnsureGrows(c: Config, s: State, t: Token)
    requires DataInv(c, s)
    ensures Grows(s, EnsureToken(s, t)) && DataInv(c, EnsureToken(s, t))
  {
  }

  lemma DeleteGrows(c: Config, s: State, l: Log)
    requires DataInv(c, s) && (l.kind == Transfer ==> Settled(s, l))
    ensures var s' := s.(failed := s.failed - {l}); Grows(s, s') && DataInv(c, s')
  {
  }

  lemma PhaseGrows(c: Config, s: State, t: State, lane: LanePhase, retry: RetryPhase)
    requires Grows(s, t) && DataInv(c, t)
    ensures Grows(s, t.(lane := lane, retry := retry)) && DataInv(c, t.(lane := lane, retry := retry))
  {
    var s' := t.(lane := lane, retry := retry);
    assert forall l :: Settled(t, l) ==> Settled(s', l);
  }

  lemma RetryStepGrows(c: Config, s: State, e: RetryEvent)
    requires DataInv(c, s) && RetryInv(s, s.retry)
    ensures Grows(s, RetryStep(c, s, e)) && DataInv(c, RetryStep(c, s, e)) && RetryStep(c, s, e).lane == s.lane
  {
    hide Tracked, Promised, Settled, Fresh, Grows, DataInv;
    var s', t := RetryStep(c, s, e), s;
    SameGrows(s);
    if s.retry.Replaying? && e.RetryInsert? {
      t := s.(events := s.events + {s.retry.log});
      EventGrows(c, s, s.retry.log);
    } else if s.retry.Replayed? && e.RetryEnsure? {
      t := EnsureToken(s, s.retry.log.token);
      EnsureGrows(c, s, s.retry.log.token);
    } else if s.retry.Refreshing? && e.RetryVisit? && CanVisit(s.retry.call, e.address) {
      t := Store(c, s, s.retry.log.token, e.address, s.retry.call.read[e.address]);
      StoreGrows(c, s, s.retry.log.token, e.address, s.retry.call.read[e.address]);
    } else if s.retry.Counting? && e.RetrySync? {
      t := Sync(s, s.retry.log.token);
      SyncGrows(c, s, s.retry.log.token);
    } else if s.retry.Deleting? && e.RetryDelete? {
      t := s.(failed := s.failed - {s.retry.log});
      DeleteGrows(c, s, s.retry.log);
    }
    PhaseGrows(c, s, t, s'.lane, s'.retry);
  }

  // ----- every step of the retry job keeps its invariant

  lemma RetryStepKeeps(c: Config, s: State, e: RetryEvent)
    requires DataInv(c, s) && RetryInv(s, s.retry)
    ensures RetryInv(RetryStep(c, s, e), RetryStep(c, s, e).retry)
  {
    var s' := RetryStep(c, s, e);
    RetryStepGrows(c, s, e);
    RetryGrows(s, s', s.retry);
  }

  // ----- every step of the lane keeps its invariant

  /** What a lane step must establish; the rest follows because the data only grew. */
  ghost predicate LaneStepOk(c: Config, s: State, s': State) {
    Grows(s, s') && DataInv(c, s') && LaneInv(c, s', s'.lane) && s'.retry == s.retry
  }

  lemma IdleKeeps(c: Config, s: State, e: LaneEvent)
    requires DataInv(c, s)
    ensures LaneStepOk(c, s, IdleStep(c, s, e)) || IdleStep(c, s, e) == s
  {
    hide Settled;
  }

  lemma InsertStepGrows(c: Config, s: State, e: LaneEvent)
    requires DataInv(c, s) && s.lane.Inserting? && LaneInv(c, s, s.lane)
    ensures Grows(s, InsertStep(s, e)) && DataInv(c, InsertStep(s, e))
  {
    hide Settled, Accounted;
    var s' := InsertStep(s, e);
    if s.lane.todo != [] {
      assert s.lane.todo[0] in s.lane.todo;
    }
    InsertGrows(c, s, s'.events, s'.failed);
    var t := s.(events := s'.events, failed := s'.failed);
    hide Grows, DataInv;
    PhaseGrows(c, s, t, s'.lane, s'.retry);
  }

  lemma HeadAndRest(logs: seq<Log>)
    ensures logs != [] ==> forall l :: l in logs <==> l == logs[0] || l in logs[1..]
  {
  }

  lemma InsertNextKeeps(c: Config, s: State)
    requires DataInv(c, s) && s.lane.Inserting? && LaneInv(c, s, s.lane)
    ensures LaneStepOk(c, s, InsertStep(s, InsertNext))
  {
    hide Accounted, Grows, DataInv, Confirmed, RangeAllowed;
    InsertStepGrows(c, s, InsertNext);
    LaneGrows(c, s, InsertStep(s, InsertNext), s.lane);
    HeadAndRest(s.lane.todo);
  }

  lemma InsertFailsKeeps(c: Config, s: State, committed: bool)
    requires DataInv(c, s) && s.lane.Inserting? && LaneInv(c, s, s.lane)
    ensures LaneStepOk(c, s, InsertStep(s, InsertFails(committed)))
  {
    hide Settled, Grows, DataInv, Confirmed, RangeAllowed;
    InsertStepGrows(c, s, InsertFails(committed));
    LaneGrows(c, s, InsertStep(s, InsertFails(committed)), s.lane);
    HeadAndRest(s.lane.todo);
  }

  lemma InsertKeeps(c: Config, s: State, e: LaneEvent)
    requires DataInv(c, s) && s.lane.Inserting? && LaneInv(c, s, s.lane)
    ensures LaneStepOk(c, s, InsertStep(s, e))
  {
    match e
    case InsertNext => InsertNextKeeps(c, s);
    case InsertFails(committed) => InsertFailsKeeps(c, s, committed);
    case _ =>
      hide Accounted, Grows, DataInv, Confirmed, RangeAllowed;
      InsertStepGrows(c, s, e);
      LaneGrows(c, s, InsertStep(s, e), s.lane);
  }

  lemma ChooseKeeps(c: Config, s: State, e: LaneEvent)
    requires DataInv(c, s) && s.lane.Choosing? && LaneInv(c, s, s.lane) && !e.SetCheckpoint?
    ensures LaneStepOk(c, s, ChooseStep(s, e))
  {
    var s' := ChooseStep(s, e);
    hide Accounted, Fresh;
    PhaseGrows(c, s, s, s'.lane, s'.retry);
    if e.ChooseToken? && e.token in s.lane.tokens {
      var touched := s.lane.batch.touched;
      var l :| l in touched && l.token == e.token;
      assert l.from in AddressesOf(touched, e.token);
      LaneGrows(c, s, s', s.lane);
    }
  }

  lemma GroupKeeps(c: Config, s: State, e: LaneEvent)
    requires DataInv(c, s) && s.lane.Grouping? && LaneInv(c, s, s.lane)
    ensures LaneStepOk(c, s, GroupStep(s, e))
  {
    var s' := GroupStep(s, e);
    hide Accounted, Fresh, Grows, DataInv;
    SameGrows(s);
    EnsureGrows(c, s, s.lane.token);
    PhaseGrows(c, s, if e.StartGroup? && s' != s then EnsureToken(s, s.lane.token) else s, s'.lane, s'.retry);
    LaneGrows(c, s, s', s.lane);
  }

  lemma CallKeeps(c: Config, s: State, e: LaneEvent)
    requires DataInv(c, s) && s.lane.Reconciling? && LaneInv(c, s, s.lane)
    ensures LaneStepOk(c, s, CallStep(c, s, e))
  {
    var s' := CallStep(c, s, e);
    var call := s.lane.call;
    hide Accounted, Grows, DataInv;
    var t := s;
    SameGrows(s);
    if e.LaneVisit? && CanVisit(call, e.address) {
      t := Store(c, s, call.token, e.address, call.read[e.address]);
      StoreGrows(c, s, call.token, e.address, call.read[e.address]);
    }
    PhaseGrows(c, s, t, s'.lane, s'.retry);
    LaneGrows(c, s, s', s.lane);
  }

  lemma RecordKeeps(c: Config, s: State, e: LaneEvent)
    requires DataInv(c, s) && s.lane.Recording? && LaneInv(c, s, s.lane)
    ensures LaneStepOk(c, s, RecordStep(s, e))
  {
    var s' := RecordStep(s, e);
    hide Settled;
    InsertGrows(c, s, s.events, s'.failed);
    PhaseGrows(c, s, s.(failed := s'.failed), s'.lane, s'.retry);
    LaneGrows(c, s, s', s.lane);
  }

  /** A token whose addresses are all fresh is settled by the sync. */
  lemma SyncSettles(c: Config, s: State, t: Token, logs: set<Log>)
    requires DataInv(c, s) && t in s.counted && logs <= s.events
    requires forall l, a :: l in logs && l.token == t && a in Tracked(l) ==> Fresh(s, t, a, l.block)
    ensures forall l :: l in logs && l.token == t ==> Settled(Sync(s, t), l)
  {
    var s' := Sync(s, t);
    assert forall a, block :: Fresh(s, t, a, block) ==> Fresh(s', t, a, block);
  }

  lemma SettledPhase(s: State, lane: LanePhase, retry: RetryPhase)
    ensures forall l :: Settled(s, l) ==> Settled(s.(lane := lane, retry := retry), l)
  {
    var s' := s.(lane := lane, retry := retry);
    assert forall t, a, block :: Fresh(s, t, a, block) ==> Fresh(s', t, a, block);
  }

  lemma SyncTokenKeeps(c: Config, s: State)
    requires DataInv(c, s) && s.lane.Syncing? && LaneInv(c, s, s.lane)
    ensures LaneStepOk(c, s, SyncStep(s, SyncToken))
  {
    var s', t := SyncStep(s, SyncToken), Sync(s, s.lane.token);
    hide Grows, DataInv, Fresh, Tracked;
    SyncGrows(c, s, s.lane.token);
    PhaseGrows(c, s, t, s'.lane, s'.retry);
    LaneGrows(c, s, s', s.lane);
    if !s.lane.failed {
      SyncSettles(c, s, s.lane.token, s.lane.batch.touched);
      SettledPhase(t, s'.lane, s'.retry);
    }
    hide Settled;
  }

  lemma SyncFailsKeeps(c: Config, s: State, e: LaneEvent)
    requires DataInv(c, s) && s.lane.Syncing? && LaneInv(c, s, s.lane) && e.SyncFails?
    ensures LaneStepOk(c, s, SyncStep(s, e))
  {
    hide Grows, DataInv, Fresh, Tracked, Settled, Accounted, TokensOf;
    var s', t := SyncStep(s, e), if e.committed then Sync(s, s.lane.token) else s;
    SameGrows(s);
    SyncGrows(c, s, s.lane.token);
    PhaseGrows(c, s, t, s'.lane, s'.retry);
    LaneGrows(c, s, s', s.lane);
  }

  /** The checkpoint moves only past logs that are accounted for. */
  lemma CheckpointKeeps(c: Config, s: State)
    requires Inv(c, s) && s.lane.Choosing?
    ensures Inv(c, ChooseStep(s, SetCheckpoint))
  {
    var s' := ChooseStep(s, SetCheckpoint);
    if s' != s {
      var b := s.lane.batch;
      assert forall l :: Accounted(s, l) <==> Accounted(s', l);
      hide Accounted;
      forall l | Due(c, l) && l.block <= s'.checkpoint
        ensures Accounted(s', l)
      {
        assert l.block <= s.checkpoint || b.lo <= l.block <= b.hi;
      }
    }
  }

  lemma LaneStepKeeps(c: Config, s: State, e: LaneEvent)
    requires DataInv(c, s) && LaneInv(c, s, s.lane) && !e.SetCheckpoint?
    ensures LaneStepOk(c, s, LaneStep(c, s, e)) || LaneStep(c, s, e) == s
  {
    hide Grows, DataInv;
    if e.LaneThrows? {
      SameGrows(s);
      PhaseGrows(c, s, s, Idle, s.retry);
    } else {
      match s.lane
      case Idle => IdleKeeps(c, s, e);
      case Inserting(_, _) => InsertKeeps(c, s, e);
      case Choosing(_, _) => ChooseKeeps(c, s, e);
      case Grouping(_, _, _, _) => GroupKeeps(c, s, e);
      case Reconciling(_, _, _, _, _) => CallKeeps(c, s, e);
      case Recording(_, _, _, _, _) => RecordKeeps(c, s, e);
      case Syncing(_, _, _, _) =>
        if e.SyncToken? { SyncTokenKeeps(c, s); }
        if e.SyncFails? { SyncFailsKeeps(c, s, e); }
    }
  }

  lemma RestingKeeps(c: Config, s: State)
    ensures LaneInv(c, s, Idle) && RetryInv(s, Resting)
  {
  }

  lemma OtherGrows(c: Config, s: State, e: Event)
    requires DataInv(c, s) && (e.HeadAdvances? || e.OtherInsert? || e.Crash?)
    ensures Grows(s, Step(c, s, e)) && DataInv(c, Step(c, s, e))
  {
    hide Settled;
  }

  lemma StepGrows(c: Config, s: State, e: Event)
    requires Inv(c, s) && e != OfLane(SetCheckpoint)
    ensures var s' := Step(c, s, e);
            Grows(s, s') && DataInv(c, s') && LaneInv(c, s', s'.lane) && RetryInv(s', s'.retry)
  {
    hide Grows, DataInv, LaneInv, RetryInv, Covered, LaneStep, RetryStep;
    var s' := Step(c, s, e);
    SameGrows(s);
    match e {
      case OfLane(step) => LaneStepKeeps(c, s, step);
      case OfRetry(act) =>
        RetryStepGrows(c, s, act);
        RetryStepKeeps(c, s, act);
      case _ =>
        OtherGrows(c, s, e);
        RestingKeeps(c, s');
    }
    LaneGrows(c, s, s', s.lane);
    RetryGrows(s, s', s.retry);
  }

  lemma StepKeeps(c: Config, s: State, e: Event)
    requires Inv(c, s)
    ensures Inv(c, Step(c, s, e)) && s.checkpoint <= Step(c, s, e).checkpoint
  {
    if e == OfLane(SetCheckpoint) {
      if s.lane.Choosing? {
        CheckpointKeeps(c, s);
      }
    } else {
      StepGrows(c, s, e);
      CoveredGrows(c, s, Step(c, s, e));
    }
  }

  lemma {:induction false} RunKeeps(c: Config, s: State, events: seq<Event>)
    requires Inv(c, s)
    ensures Inv(c, Run(c, s, events)) && s.checkpoint <= Run(c, s, events).checkpoint
    decreases |events|
  {
    if events != [] {
      StepKeeps(c, s, events[0]);
      RunKeeps(c, Step(c, s, events[0]), events[1..]);
    }
  }

  // ----- main results

  /** After every run, with errors and crashes anywhere and the retry job interleaved, every
      transfer log from the start block up to the checkpoint is in failed_events or is settled:
      inserted, both balances stored from a chain state that includes it, and counted. */
  lemma NothingLost(c: Config, events: seq<Event>, l: Log)
    requires Due(c, l) && l.block <= After(c, events).checkpoint
    ensures Accounted(After(c, events), l)
  {
    RunKeeps(c, Start(c), events);
  }

  /** The checkpoint never goes back, and never passes the larger of what it was at first and the
      highest confirmed block. */
  lemma CheckpointMonotone(c: Config, events: seq<Event>, more: seq<Event>)
    ensures After(c, events).checkpoint <= Run(c, After(c, events), more).checkpoint
    ensures var s := Run(c, After(c, events), more);
            s.checkpoint <= c.initial || s.checkpoint <= 0 || s.checkpoint <= s.head - c.confirmations
  {
    RunKeeps(c, Start(c), events);
    RunKeeps(c, After(c, events), more);
  }

  // ----- what comes from outside, and what an error leaves

  predicate SameDatabase(s: State, s': State) {
    s'.checkpoint == s.checkpoint && s'.events == s.events && s'.failed == s.failed && s'.counted == s.counted && s'.rows == s.rows
  }

  /** The head never goes back and takes any later value; other inserts add their log and nothing
      else; a crash and an error that nobody handles end the jobs and leave the database alone. */
  lemma FromOutside(c: Config, s: State, h: nat, l: Log)
    ensures Step(c, s, HeadAdvances(h)).head == (if h < s.head then s.head else h) && SameDatabase(s, Step(c, s, HeadAdvances(h)))
    ensures Step(c, s, OtherInsert(l)) == s.(events := s.events + {l})
    ensures Step(c, s, Crash).lane == Idle && Step(c, s, Crash).retry == Resting && SameDatabase(s, Step(c, s, Crash))
    ensures Step(c, s, OfLane(LaneThrows)).lane == Idle && Step(c, s, OfLane(LaneThrows)).retry == s.retry
    ensures SameDatabase(s, Step(c, s, OfLane(LaneThrows)))
    ensures Step(c, s, OfRetry(RetryFails)).retry == Resting && Step(c, s, OfRetry(RetryFails)).lane == s.lane
    ensures SameDatabase(s, Step(c, s, OfRetry(RetryFails)))
  {
  }

  /** A call comes to no row before it has made all its reads. */
  lemma ReadsFirst(c: Config, s: State, a: Address)
    ensures s.lane.Reconciling? && s.lane.call.unread != {} ==> Step(c, s, OfLane(LaneVisit(a))) == s
    ensures s.retry.Refreshing? && s.retry.call.unread != {} ==> Step(c, s, OfRetry(RetryVisit(a))) == s
  {
  }

  /** A call is started exactly for addresses that are still to be reconciled. */
  lemma GroupsFromLeft(c: Config, s: State, group: set<Address>)
    requires s.lane.Grouping?
    ensures Step(c, s, OfLane(StartGroup(group))) != s <==> group != {} && group <= s.lane.left
  {
    if group != {} && group <= s.lane.left {
      assert Step(c, s, OfLane(StartGroup(group))).lane.Reconciling?;
    }
  }

  /** A sync that fails may have counted all the same; then, too, the logs are recorded. */
  lemma SyncMayCount(s: State, committed: bool)
    requires s.lane.Syncing? && s.lane.token in s.counted
    ensures var Syncing(b, tokens, t, failed) := s.lane;
            SyncStep(s, SyncFails(committed))
            == s.(counted := if committed then s.counted[t := set l | l in s.events && l.token == t] else s.counted,
                  lane := if failed then Choosing(b, tokens - {t})
                          else Recording(b, tokens, t, set l | l in b.touched && l.token == t, false))
  {
  }

  // ----- a batch that is not aborted ends with the checkpoint at its end

  predicate InBatch(lane: LanePhase, hi: nat) {
    !lane.Idle? && lane.batch.hi == hi
  }

  ghost predicate NotAborted(events: seq<Event>) {
    forall i :: 0 <= i < |events| ==> events[i] != Crash && events[i] != OfLane(LaneThrows)
  }

  /** The batch goes on, or the checkpoint has come to its end. */
  predicate BatchKept(s: State, s': State) {
    && s.checkpoint <= s'.checkpoint
    && (!s.lane.Idle? ==> InBatch(s'.lane, s.lane.batch.hi) || s.lane.batch.hi <= s'.checkpoint)
  }

  lemma IdleBatch(c: Config, s: State, e: LaneEvent)
    requires s.lane.Idle?
    ensures BatchKept(s, IdleStep(c, s, e))
  {
  }

  lemma InsertBatch(s: State, e: LaneEvent)
    requires s.lane.Inserting?
    ensures BatchKept(s, InsertStep(s, e))
  {
  }

  lemma ChooseBatch(s: State, e: LaneEvent)
    requires s.lane.Choosing?
    ensures BatchKept(s, ChooseStep(s, e))
  {
  }

  lemma GroupBatch(s: State, e: LaneEvent)
    requires s.lane.Grouping?
    ensures BatchKept(s, GroupStep(s, e))
  {
  }

  lemma CallBatch(c: Config, s: State, e: LaneEvent)
    requires s.lane.Reconciling?
    ensures BatchKept(s, CallStep(c, s, e))
  {
  }

  lemma RecordBatch(s: State, e: LaneEvent)
    requires s.lane.Recording?
    ensures BatchKept(s, RecordStep(s, e))
  {
  }

  lemma SyncBatch(s: State, e: LaneEvent)
    requires s.lane.Syncing?
    ensures BatchKept(s, SyncStep(s, e))
  {
  }

  lemma RetryBatch(c: Config, s: State, e: RetryEvent)
    ensures RetryStep(c, s, e).lane == s.lane && RetryStep(c, s, e).checkpoint == s.checkpoint
  {
  }

  lemma LaneBatch(c: Config, s: State, e: LaneEvent)
    requires !e.LaneThrows?
    ensures BatchKept(s, LaneStep(c, s, e))
  {
    hide BatchKept, IdleStep, InsertStep, ChooseStep, GroupStep, CallStep, RecordStep, SyncStep;
    match s.lane
    case Idle => IdleBatch(c, s, e);
    case Inserting(_, _) => InsertBatch(s, e);
    case Choosing(_, _) => ChooseBatch(s, e);
    case Grouping(_, _, _, _) => GroupBatch(s, e);
    case Reconciling(_, _, _, _, _) => CallBatch(c, s, e);
    case Recording(_, _, _, _, _) => RecordBatch(s, e);
    case Syncing(_, _, _, _) => SyncBatch(s, e);
  }

  lemma BatchStep(c: Config, s: State, e: Event, hi: nat)
    requires (InBatch(s.lane, hi) || hi <= s.checkpoint) && e != Crash && e != OfLane(LaneThrows)
    ensures InBatch(Step(c, s, e).lane, hi) || hi <= Step(c, s, e).checkpoint
  {
    hide LaneStep, RetryStep;
    match e
    case OfLane(step) => LaneBatch(c, s, step);
    case OfRetry(act) => RetryBatch(c, s, act);
    case _ =>
  }

  /** However its steps interleave with the rest, a batch up to hi that no error and no crash aborts
      leaves the lane idle only with every block up to hi at or below the checkpoint. */
  lemma {:induction false} BatchEnds(c: Config, s: State, events: seq<Event>, hi: nat)
    requires (InBatch(s.lane, hi) || hi <= s.checkpoint) && NotAborted(events)
    ensures Run(c, s, events).lane.Idle? ==> hi <= Run(c, s, events).checkpoint
    ensures InBatch(Run(c, s, events).lane, hi) || hi <= Run(c, s, events).checkpoint
    decreases |events|
  {
    if events != [] {
      hide Step;
      BatchStep(c, s, events[0], hi);
      BatchEnds(c, Step(c, s, events[0]), events[1..], hi);
    }
  }

  // ----- stored balances

  // Between the read of a balance and the visit to its row the other job may come to the row with
  // a later read. The marks below follow such overtaking through a run; they look only at the two
  // open calls and the amounts they hold.

  /** The addresses of the lane's and of the retry job's open call that were overtaken, with the
      height of the read that overtook them, and the keys whose last visit was outdated. */
  datatype Marks = Marks(lane: map<Address, nat>, retry: map<Address, nat>, behind: set<(Token, Address)>)

  const UNMARKED := Marks(map[], map[], {})

  predicate LaneVisits(s: State, e: Event) {
    e.OfLane? && e.step.LaneVisit? && s.lane.Reconciling? && CanVisit(s.lane.call, e.step.address)
  }

  predicate RetryVisits(s: State, e: Event) {
    e.OfRetry? && e.act.RetryVisit? && s.retry.Refreshing? && CanVisit(s.retry.call, e.act.address)
  }

  /** The call holds a balance of the address that was read before the given height. */
  predicate HoldsOlder(call: Reconcile, t: Token, a: Address, height: nat) {
    call.token == t && a in call.read && call.read[a] < height
  }

  /** The lane comes with a balance for which the retry job holds an older one, or the other way
      round. */
  predicate Overtakes(s: State, e: Event) {
    || (LaneVisits(s, e) && s.retry.Refreshing?
        && HoldsOlder(s.retry.call, s.lane.token, e.step.address, s.lane.call.read[e.step.address]))
    || (RetryVisits(s, e) && s.lane.Reconciling?
        && HoldsOlder(s.lane.call, s.retry.log.token, e.act.address, s.retry.call.read[e.act.address]))
  }

  /** The read was overtaken, by one that saw another amount. */
  predicate Outdated(c: Config, t: Token, call: Reconcile, over: map<Address, nat>, a: Address) {
    a in over && a in call.read && c.balance(t, a, call.read[a]) != c.balance(t, a, over[a])
  }

  predicate VisitsOutdated(c: Config, s: State, m: Marks, e: Event) {
    || (LaneVisits(s, e) && Outdated(c, s.lane.token, s.lane.call, m.lane, e.step.address))
    || (RetryVisits(s, e) && Outdated(c, s.retry.log.token, s.retry.call, m.retry, e.act.address))
  }

  function Overtaken(over: map<Address, nat>, a: Address, height: nat): map<Address, nat> {
    over[a := if a in over then Max(over[a], height) else height]
  }

  function MarkVisit(c: Config, s: State, m: Marks, e: Event): Marks {
    if LaneVisits(s, e) then
      var a, k := e.step.address, (s.lane.token, e.step.address);
      Marks(m.lane - {a}, if Overtakes(s, e) then Overtaken(m.retry, a, s.lane.call.read[a]) else m.retry,
            if VisitsOutdated(c, s, m, e) then m.behind + {k} else m.behind - {k})
    else if RetryVisits(s, e) then
      var a, k := e.act.address, (s.retry.log.token, e.act.address);
      Marks(if Overtakes(s, e) then Overtaken(m.lane, a, s.retry.call.read[a]) else m.lane, m.retry - {a},
            if VisitsOutdated(c, s, m, e) then m.behind + {k} else m.behind - {k})
    else m
  }

  /** The marks of a call end with it. */
  function Mark(c: Config, s: State, m: Marks, e: Event): Marks {
    var s', m' := Step(c, s, e), MarkVisit(c, s, m, e);
    m'.(lane := if s'.lane.Reconciling? then m'.lane else map[], retry := if s'.retry.Refreshing? then m'.retry else map[])
  }

  function MarksOver(c: Config, s: State, m: Marks, events: seq<Event>): Marks
    decreases |events|
  {
    if events == [] then m else MarksOver(c, Step(c, s, events[0]), Mark(c, s, m, events[0]), events[1..])
  }

  // What the marks mean.

  predicate Supersedes(s: State, t: Token, a: Address, height: nat) {
    (t, a) in s.newest ==> s.newest[(t, a)] <= height
  }

  ghost predicate CallMarked(s: State, t: Token, call: Reconcile, over: map<Address, nat>) {
    && call.token == t && call.unread !! call.read.Keys && over.Keys <= call.read.Keys
    && 0 !in call.unread && 0 !in call.read
    && forall a :: a in call.read ==>
                     && (a in over <==> !Supersedes(s, t, a, call.read[a]))
                     && (a in over ==> over[a] == s.newest[(t, a)])
  }

  ghost predicate RowMarked(c: Config, s: State, behind: set<(Token, Address)>, k: (Token, Address))
    requires k in s.newest && k in s.stored
  {
    && s.stored[k] <= s.newest[k] && Amount(s.rows, k) == BalanceAt(c, k, s.stored[k])
    && (k in s.rows ==> s.rows[k] > 0) && k.1 != 0
    && (k in behind <==> Amount(s.rows, k) != BalanceAt(c, k, s.newest[k]))
  }

  ghost predicate StoreMarked(c: Config, s: State, behind: set<(Token, Address)>) {
    && behind <= s.newest.Keys && s.rows.Keys <= s.newest.Keys && s.stored.Keys == s.newest.Keys
    && forall k :: k in s.newest ==> RowMarked(c, s, behind, k)
  }

  ghost predicate MarksOk(c: Config, s: State, m: Marks) {
    && StoreMarked(c, s, m.behind)
    && (if s.lane.Reconciling? then CallMarked(s, s.lane.token, s.lane.call, m.lane) else m.lane == map[])
    && (if s.retry.Refreshing? then CallMarked(s, s.retry.log.token, s.retry.call, m.retry) else m.retry == map[])
  }

  lemma VisitMarksStore(c: Config, s: State, behind: set<(Token, Address)>, t: Token, call: Reconcile,
                        over: map<Address, nat>, a: Address)
    requires StoreMarked(c, s, behind) && CallMarked(s, t, call, over) && a in call.read
    ensures StoreMarked(c, Store(c, s, t, a, call.read[a]),
                        if Outdated(c, t, call, over, a) then behind + {(t, a)} else behind - {(t, a)})
  {
  }

  lemma VisitMarksOwn(c: Config, s: State, t: Token, call: Reconcile, over: map<Address, nat>, a: Address)
    requires CallMarked(s, t, call, over) && a in call.read
    ensures CallMarked(Store(c, s, t, a, call.read[a]), t, call.(read := call.read - {a}), over - {a})
  {
  }

  lemma VisitMarksOther(c: Config, s: State, u: Token, call: Reconcile, over: map<Address, nat>, t: Token, a: Address, height: nat)
    requires CallMarked(s, u, call, over)
    ensures CallMarked(Store(c, s, t, a, height), u, call, if HoldsOlder(call, t, a, height) then Overtaken(over, a, height) else over)
  {
  }

  lemma ReadMarks(s: State, t: Token, call: Reconcile, over: map<Address, nat>, a: Address, head: nat)
    requires CallMarked(s, t, call, over) && Supersedes(s, t, a, head)
    ensures CallMarked(s, t, Read(call, a, head), over)
  {
  }

  /** The marks depend on nothing but the newest heights. */
  lemma SameMarks(s: State, s': State, t: Token, call: Reconcile, over: map<Address, nat>)
    requires CallMarked(s, t, call, over) && s'.newest == s.newest
    ensures CallMarked(s', t, call, over)
  {
  }

  lemma BeginMarks(s: State, t: Token, addresses: set<Address>)
    ensures CallMarked(s, t, Begin(t, addresses), map[])
  {
  }

  lemma SamePhase(c: Config, s: State, t: Token, a: Address, height: nat)
    ensures Store(c, s, t, a, height).lane == s.lane && Store(c, s, t, a, height).retry == s.retry
  {
  }

  lemma SameStore(c: Config, s: State, s': State, behind: set<(Token, Address)>)
    requires StoreMarked(c, s, behind) && s'.newest == s.newest && s'.stored == s.stored && s'.rows == s.rows
    ensures StoreMarked(c, s', behind)
  {
  }

  lemma LaneVisitMarks(c: Config, s: State, m: Marks, e: Event)
    requires MarksOk(c, s, m) && LaneVisits(s, e)
    ensures MarksOk(c, Step(c, s, e), Mark(c, s, m, e))
  {
    hide StoreMarked, CallMarked, Store, Outdated, Overtaken;
    var a, t, call := e.step.address, s.lane.token, s.lane.call;
    var stored := Store(c, s, t, a, call.read[a]);
    VisitMarksStore(c, s, m.behind, t, call, m.lane, a);
    VisitMarksOwn(c, s, t, call, m.lane, a);
    SamePhase(c, s, t, a, call.read[a]);
    SameStore(c, stored, Step(c, s, e), Mark(c, s, m, e).behind);
    SameMarks(stored, Step(c, s, e), t, call.(read := call.read - {a}), m.lane - {a});
    if s.retry.Refreshing? {
      VisitMarksOther(c, s, s.retry.log.token, s.retry.call, m.retry, t, a, call.read[a]);
      SameMarks(stored, Step(c, s, e), s.retry.log.token, s.retry.call, Mark(c, s, m, e).retry);
    }
  }

  lemma RetryVisitMarks(c: Config, s: State, m: Marks, e: Event)
    requires MarksOk(c, s, m) && RetryVisits(s, e)
    ensures MarksOk(c, Step(c, s, e), Mark(c, s, m, e))
  {
    hide StoreMarked, CallMarked, Store, Outdated, Overtaken;
    var a, t, call := e.act.address, s.retry.log.token, s.retry.call;
    var stored := Store(c, s, t, a, call.read[a]);
    VisitMarksStore(c, s, m.behind, t, call, m.retry, a);
    VisitMarksOwn(c, s, t, call, m.retry, a);
    SamePhase(c, s, t, a, call.read[a]);
    SameStore(c, stored, Step(c, s, e), Mark(c, s, m, e).behind);
    SameMarks(stored, Step(c, s, e), t, call.(read := call.read - {a}), m.retry - {a});
    if s.lane.Reconciling? {
      VisitMarksOther(c, s, s.lane.token, s.lane.call, m.lane, t, a, call.read[a]);
      SameMarks(stored, Step(c, s, e), s.lane.token, s.lane.call, Mark(c, s, m, e).lane);
    }
  }

  ghost predicate SameBalances(s: State, s': State) {
    s'.newest == s.newest && s'.stored == s.stored && s'.rows == s.rows && s'.retry == s.retry && s'.head == s.head
  }

  lemma IdleQuiet(c: Config, s: State, e: LaneEvent)
    ensures SameBalances(s, IdleStep(c, s, e)) && !(IdleStep(c, s, e).lane.Reconciling? && s.lane.Idle?)
  {
  }

  lemma InsertQuiet(s: State, e: LaneEvent)
    requires s.lane.Inserting?
    ensures SameBalances(s, InsertStep(s, e)) && !InsertStep(s, e).lane.Reconciling?
  {
  }

  lemma RecordQuiet(s: State, e: LaneEvent)
    requires s.lane.Recording?
    ensures SameBalances(s, RecordStep(s, e)) && !RecordStep(s, e).lane.Reconciling?
  {
  }

  lemma CallQuiet(c: Config, s: State, e: LaneEvent)
    requires s.lane.Reconciling? && !LaneVisits(s, OfLane(e))
    ensures var s' := CallStep(c, s, e);
            && SameBalances(s, s')
            && (s'.lane.Reconciling? ==>
                  && s'.lane.token == s.lane.token
                  && (s'.lane.call == s.lane.call || (e.LaneRead? && s'.lane.call == Read(s.lane.call, e.address, s.head))))
  {
  }

  lemma SyncQuiet(s: State, e: LaneEvent)
    requires s.lane.Syncing?
    ensures SameBalances(s, SyncStep(s, e)) && !SyncStep(s, e).lane.Reconciling?
  {
  }

  /** Without a visit to a row, a lane step leaves the open call alone, reads into it, ends it or opens one. */
  lemma LaneQuiet(c: Config, s: State, e: LaneEvent)
    requires !LaneVisits(s, OfLane(e))
    ensures var s' := LaneStep(c, s, e);
            && s'.newest == s.newest && s'.stored == s.stored && s'.rows == s.rows && s'.retry == s.retry && s'.head == s.head
            && (s'.lane.Reconciling? ==>
                  if !s.lane.Reconciling? then exists group :: s'.lane.call == Begin(s'.lane.token, group)
                  else s'.lane.token == s.lane.token
                       && (s'.lane.call == s.lane.call || (e.LaneRead? && s'.lane.call == Read(s.lane.call, e.address, s.head))))
  {
    hide IdleStep, InsertStep, RecordStep, SyncStep, CallStep;
    match s.lane
    case Idle => IdleQuiet(c, s, e);
    case Inserting(_, _) => InsertQuiet(s, e);
    case Recording(_, _, _, _, _) => RecordQuiet(s, e);
    case Syncing(_, _, _, _) => SyncQuiet(s, e);
    case Reconciling(_, _, _, _, _) => CallQuiet(c, s, e);
    case _ =>
  }

  lemma TokenQuiet(s: State)
    ensures forall t :: SameBalances(s, EnsureToken(s, t)) && EnsureToken(s, t).lane == s.lane
    ensures forall t :: SameBalances(s, Sync(s, t)) && Sync(s, t).lane == s.lane
  {
  }

  lemma RetryQuiet(c: Config, s: State, e: RetryEvent)
    requires !RetryVisits(s, OfRetry(e))
    ensures var s' := RetryStep(c, s, e);
            && s'.newest == s.newest && s'.stored == s.stored && s'.rows == s.rows && s'.lane == s.lane && s'.head == s.head
            && (s'.retry.Refreshing? ==>
                  if !s.retry.Refreshing? then exists group :: s'.retry.call == Begin(s'.retry.log.token, group)
                  else s'.retry.log == s.retry.log
                       && (s'.retry.call == s.retry.call || (e.RetryRead? && s'.retry.call == Read(s.retry.call, e.address, s.head))))
  {
    hide Store, Read, Begin, EnsureToken, Sync;
    TokenQuiet(s);
  }

  lemma LaneQuietMarks(c: Config, s: State, m: Marks, e: LaneEvent)
    requires DataInv(c, s) && MarksOk(c, s, m) && !LaneVisits(s, OfLane(e))
    ensures MarksOk(c, Step(c, s, OfLane(e)), Mark(c, s, m, OfLane(e)))
  {
    LaneQuiet(c, s, e);
    hide LaneStep, StoreMarked, CallMarked, Read, Begin;
    var s' := Step(c, s, OfLane(e));
    SameStore(c, s, s', m.behind);
    if s'.lane.Reconciling? {
      if !s.lane.Reconciling? {
        var group :| s'.lane.call == Begin(s'.lane.token, group);
        BeginMarks(s', s'.lane.token, group);
      } else {
        if e.LaneRead? { ReadMarks(s, s.lane.token, s.lane.call, m.lane, e.address, s.head); }
        SameMarks(s, s', s'.lane.token, s'.lane.call, m.lane);
      }
    }
    if s.retry.Refreshing? { SameMarks(s, s', s.retry.log.token, s.retry.call, m.retry); }
  }

  lemma RetryQuietMarks(c: Config, s: State, m: Marks, e: RetryEvent)
    requires DataInv(c, s) && MarksOk(c, s, m) && !RetryVisits(s, OfRetry(e))
    ensures MarksOk(c, Step(c, s, OfRetry(e)), Mark(c, s, m, OfRetry(e)))
  {
    RetryQuiet(c, s, e);
    hide RetryStep, StoreMarked, CallMarked, Read, Begin;
    var s' := Step(c, s, OfRetry(e));
    SameStore(c, s, s', m.behind);
    if s'.retry.Refreshing? {
      if !s.retry.Refreshing? {
        var group :| s'.retry.call == Begin(s'.retry.log.token, group);
        BeginMarks(s', s'.retry.log.token, group);
      } else {
        if e.RetryRead? { ReadMarks(s, s.retry.log.token, s.retry.call, m.retry, e.address, s.head); }
        SameMarks(s, s', s'.retry.log.token, s'.retry.call, m.retry);
      }
    }
    if s.lane.Reconciling? { SameMarks(s, s', s.lane.token, s.lane.call, m.lane); }
  }

  lemma MarkKeeps(c: Config, s: State, m: Marks, e: Event)
    requires DataInv(c, s) && MarksOk(c, s, m)
    ensures MarksOk(c, Step(c, s, e), Mark(c, s, m, e))
  {
    if LaneVisits(s, e) {
      LaneVisitMarks(c, s, m, e);
    } else if RetryVisits(s, e) {
      RetryVisitMarks(c, s, m, e);
    } else if e.OfLane? {
      LaneQuietMarks(c, s, m, e.step);
    } else if e.OfRetry? {
      RetryQuietMarks(c, s, m, e.act);
    }
  }

  lemma MarkAll(c: Config, s: State, m: Marks, e: Event)
    requires Inv(c, s) && MarksOk(c, s, m)
    ensures MarksOk(c, Step(c, s, e), Mark(c, s, m, e))
  {
    MarkKeeps(c, s, m, e);
  }

  lemma {:induction false} MarksMean(c: Config, s: State, m: Marks, events: seq<Event>)
    requires Inv(c, s) && MarksOk(c, s, m)
    ensures MarksOk(c, Run(c, s, events), MarksOver(c, s, m, events))
    decreases |events|
  {
    if events != [] {
      hide MarksOk, Inv, Step, Mark;
      StepKeeps(c, s, events[0]);
      MarkAll(c, s, m, events[0]);
      MarksMean(c, Step(c, s, events[0]), Mark(c, s, m, events[0]), events[1..]);
    }
  }

  lemma StartMarks(c: Config)
    ensures Inv(c, Start(c)) && MarksOk(c, Start(c), UNMARKED)
  {
  }

  ghost function MarksAfter(c: Config, events: seq<Event>): Marks {
    MarksOver(c, Start(c), UNMARKED, events)
  }

  /** The row shows the balance as of the latest height that any call ever came to it with. */
  predicate ShowsNewest(c: Config, s: State, k: (Token, Address)) {
    k in s.newest ==> Amount(s.rows, k) == BalanceAt(c, k, s.newest[k])
  }

  /** After every run, a row shows the balance as of the latest height that any call came to it
      with, exactly if the last call to come did not hold an outdated read. */
  lemma ShowsNewestIff(c: Config, events: seq<Event>, k: (Token, Address))
    ensures ShowsNewest(c, After(c, events), k) <==> k !in MarksAfter(c, events).behind
  {
    StartMarks(c);
    MarksMean(c, Start(c), UNMARKED, events);
    hide Run, MarksOver, CallMarked;
    var s := After(c, events);
    if k in s.newest {
      assert RowMarked(c, s, MarksAfter(c, events).behind, k);
    }
  }

  /** After every run the rows are those of holders: none shows a zero balance, and none is for the
      zero address, to whose row no call ever comes. */
  lemma RowsOfHolders(c: Config, events: seq<Event>, k: (Token, Address))
    ensures k in After(c, events).rows ==> After(c, events).rows[k] > 0
    ensures k in After(c, events).rows || k in After(c, events).newest ==> k.1 != 0
  {
    StartMarks(c);
    MarksMean(c, Start(c), UNMARKED, events);
    hide Run, MarksOver, CallMarked;
    if k in After(c, events).newest {
      assert RowMarked(c, After(c, events), MarksAfter(c, events).behind, k);
    }
  }

  /** The row shows the balance as of a chain state that includes the block. */
  ghost predicate Includes(c: Config, s: State, k: (Token, Address), block: nat) {
    exists height :: block <= height <= s.head && Amount(s.rows, k) == BalanceAt(c, k, height)
  }

  /** So a covered log that is not in failed_events is in the balances of its addresses, unless
      the last call to come to one held an outdated read. */
  lemma BalancesCurrent(c: Config, events: seq<Event>, l: Log, a: Address)
    requires var s := After(c, events);
             Due(c, l) && l.block <= s.checkpoint && l !in s.failed && a in Tracked(l)
    requires (l.token, a) !in MarksAfter(c, events).behind
    ensures Includes(c, After(c, events), (l.token, a), l.block)
  {
    NothingLost(c, events, l);
    ShowsNewestIff(c, events, (l.token, a));
    RunKeeps(c, Start(c), events);
    hide Run, MarksOver;
    var s := After(c, events);
    assert Fresh(s, l.token, a, l.block);
    assert l.block <= s.newest[(l.token, a)] <= s.head;
  }

  // Over whole runs.

  ghost predicate HeightsKept(s: State, s': State) {
    forall k :: k in s.stored ==> k in s'.stored && s.stored[k] <= s'.stored[k]
  }

  /** No row is ever replaced by an amount read earlier than the one it shows. */
  ghost predicate NeverFalls(c: Config, s: State, events: seq<Event>)
    decreases |events|
  {
    events != [] ==> HeightsKept(s, Step(c, s, events[0])) && NeverFalls(c, Step(c, s, events[0]), events[1..])
  }

  predicate NeverVisitsOutdated(c: Config, s: State, m: Marks, events: seq<Event>)
    decreases |events|
  {
    events != [] ==>
      && !VisitsOutdated(c, s, m, events[0])
      && NeverVisitsOutdated(c, Step(c, s, events[0]), Mark(c, s, m, events[0]), events[1..])
  }

  lemma StoreFalls(c: Config, s: State, t: Token, call: Reconcile, over: map<Address, nat>, a: Address, behind: set<(Token, Address)>)
    requires StoreMarked(c, s, behind) && s.stored == s.newest && CallMarked(s, t, call, over) && a in call.read
    ensures var s' := Store(c, s, t, a, call.read[a]);
            && (HeightsKept(s, s') <==> !Outdated(c, t, call, over, a))
            && (!Outdated(c, t, call, over, a) ==> s'.stored == s'.newest)
  {
    var s', k := Store(c, s, t, a, call.read[a]), (t, a);
    if k in s.newest {
      assert RowMarked(c, s, behind, k);
    }
    assert k in s'.stored;
  }

  lemma LaneStores(c: Config, s: State, e: Event)
    requires LaneVisits(s, e)
    ensures var s', stored := Step(c, s, e), Store(c, s, s.lane.token, e.step.address, s.lane.call.read[e.step.address]);
            s'.stored == stored.stored && s'.newest == stored.newest
  {
  }

  lemma RetryStores(c: Config, s: State, e: Event)
    requires RetryVisits(s, e)
    ensures var s', stored := Step(c, s, e), Store(c, s, s.retry.log.token, e.act.address, s.retry.call.read[e.act.address]);
            s'.stored == stored.stored && s'.newest == stored.newest
  {
  }

  lemma StepFalls(c: Config, s: State, m: Marks, e: Event)
    requires MarksOk(c, s, m) && s.stored == s.newest
    ensures HeightsKept(s, Step(c, s, e)) <==> !VisitsOutdated(c, s, m, e)
    ensures !VisitsOutdated(c, s, m, e) ==> Step(c, s, e).stored == Step(c, s, e).newest
  {
    hide LaneStep, RetryStep, Store, Outdated, StoreMarked, CallMarked;
    if LaneVisits(s, e) {
      LaneStores(c, s, e);
      StoreFalls(c, s, s.lane.token, s.lane.call, m.lane, e.step.address, m.behind);
    } else if RetryVisits(s, e) {
      RetryStores(c, s, e);
      StoreFalls(c, s, s.retry.log.token, s.retry.call, m.retry, e.act.address, m.behind);
    } else if e.OfLane? {
      LaneQuiet(c, s, e.step);
    } else if e.OfRetry? {
      RetryQuiet(c, s, e.act);
    }
  }

  lemma {:induction false} NeverFallsFrom(c: Config, s: State, m: Marks, events: seq<Event>)
    requires Inv(c, s) && MarksOk(c, s, m) && s.stored == s.newest
    ensures NeverFalls(c, s, events) <==> NeverVisitsOutdated(c, s, m, events)
    decreases |events|
  {
    if events != [] {
      hide MarksOk, Inv, Step, Mark, HeightsKept, VisitsOutdated;
      StepFalls(c, s, m, events[0]);
      if !VisitsOutdated(c, s, m, events[0]) {
        StepKeeps(c, s, events[0]);
        MarkAll(c, s, m, events[0]);
        NeverFallsFrom(c, Step(c, s, events[0]), Mark(c, s, m, events[0]), events[1..]);
      }
    }
  }

  /** Along every run, no row is replaced by an amount read earlier than the one it shows exactly
      if no call comes to a row with an outdated read. */
  lemma NeverFallsIff(c: Config, events: seq<Event>)
    ensures NeverFalls(c, Start(c), events) <==> NeverVisitsOutdated(c, Start(c), UNMARKED, events)
  {
    StartMarks(c);
    NeverFallsFrom(c, Start(c), UNMARKED, events);
  }

  // One step at a time, without the marks.

  /** No open call holds a balance read before one that came to the same row. */
  ghost predicate CallsCurrent(s: State) {
    && (s.lane.Reconciling? ==>
          forall a :: a in s.lane.call.read ==> Supersedes(s, s.lane.token, a, s.lane.call.read[a]))
    && (s.retry.Refreshing? ==>
          forall a :: a in s.retry.call.read ==> Supersedes(s, s.retry.log.token, a, s.retry.call.read[a]))
  }

  lemma CallCurrentIff(s: State, t: Token, call: Reconcile, over: map<Address, nat>)
    requires CallMarked(s, t, call, over)
    ensures (forall a :: a in call.read ==> Supersedes(s, t, a, call.read[a])) <==> over == map[]
  {
    if over != map[] {
      var a :| a in over;
      assert a in call.read && !Supersedes(s, t, a, call.read[a]);
    }
  }

  lemma CurrentIffUnmarked(c: Config, s: State, m: Marks)
    requires MarksOk(c, s, m)
    ensures CallsCurrent(s) <==> m.lane == map[] && m.retry == map[]
  {
    hide StoreMarked, CallMarked, Supersedes;
    if s.lane.Reconciling? {
      CallCurrentIff(s, s.lane.token, s.lane.call, m.lane);
    }
    if s.retry.Refreshing? {
      CallCurrentIff(s, s.retry.log.token, s.retry.call, m.retry);
    }
  }

  ghost predicate NeverOvertakes(c: Config, s: State, events: seq<Event>)
    decreases |events|
  {
    events != [] ==> !Overtakes(s, events[0]) && NeverOvertakes(c, Step(c, s, events[0]), events[1..])
  }

  ghost predicate AlwaysCurrent(c: Config, s: State, events: seq<Event>)
    decreases |events|
  {
    CallsCurrent(s) && (events != [] ==> AlwaysCurrent(c, Step(c, s, events[0]), events[1..]))
  }

  lemma Overtaking(c: Config, s: State, m: Marks, e: Event)
    requires m.lane == map[] && m.retry == map[]
    ensures Mark(c, s, m, e).lane == map[] && Mark(c, s, m, e).retry == map[] <==> !Overtakes(s, e)
  {
  }

  lemma StepOvertakes(c: Config, s: State, m: Marks, e: Event)
    requires Inv(c, s) && MarksOk(c, s, m) && CallsCurrent(s)
    ensures CallsCurrent(Step(c, s, e)) <==> !Overtakes(s, e)
    ensures !VisitsOutdated(c, s, m, e)
  {
    CurrentIffUnmarked(c, s, m);
    MarkAll(c, s, m, e);
    CurrentIffUnmarked(c, Step(c, s, e), Mark(c, s, m, e));
    hide CallsCurrent, MarksOk, Inv;
    Overtaking(c, s, m, e);
  }

  lemma {:induction false} NeverOvertakesFrom(c: Config, s: State, m: Marks, events: seq<Event>)
    requires Inv(c, s) && MarksOk(c, s, m) && CallsCurrent(s)
    ensures AlwaysCurrent(c, s, events) <==> NeverOvertakes(c, s, events)
    ensures NeverOvertakes(c, s, events) ==> NeverVisitsOutdated(c, s, m, events)
    decreases |events|
  {
    if events != [] {
      hide MarksOk, Inv, Step, Mark, CallsCurrent, Overtakes, VisitsOutdated;
      StepOvertakes(c, s, m, events[0]);
      if !Overtakes(s, events[0]) {
        StepKeeps(c, s, events[0]);
        MarkAll(c, s, m, events[0]);
        NeverOvertakesFrom(c, Step(c, s, events[0]), Mark(c, s, m, events[0]), events[1..]);
      }
    }
  }

  lemma {:induction false} NeverBehind(c: Config, s: State, m: Marks, events: seq<Event>)
    requires NeverVisitsOutdated(c, s, m, events) && m.behind == {}
    ensures MarksOver(c, s, m, events).behind == {}
    decreases |events|
  {
    if events != [] {
      NeverBehind(c, Step(c, s, events[0]), Mark(c, s, m, events[0]), events[1..]);
    }
  }

  /** Along every run, no open call is ever overtaken exactly if no visit to a row overtakes the
      other job's call; then no row goes back in time and every row shows its newest balance. */
  lemma NeverOvertakesIff(c: Config, events: seq<Event>)
    ensures AlwaysCurrent(c, Start(c), events) <==> NeverOvertakes(c, Start(c), events)
    ensures NeverOvertakes(c, Start(c), events) ==>
              NeverFalls(c, Start(c), events) && MarksAfter(c, events).behind == {}
  {
    StartMarks(c);
    NeverOvertakesFrom(c, Start(c), UNMARKED, events);
    NeverFallsIff(c, events);
    if NeverOvertakes(c, Start(c), events) {
      NeverBehind(c, Start(c), UNMARKED, events);
    }
  }

  // ----- when a call is overtaken, the stored balance can be older than a settled log

  ghost predicate Reachable(c: Config, s: State) {
    exists events :: After(c, events) == s
  }

  lemma {:induction false} RunLast(c: Config, s: State, events: seq<Event>, e: Event)
    ensures Run(c, s, events + [e]) == Step(c, Run(c, s, events), e)
    decreases |events|
  {
    if events == [] {
      assert events + [e] == [e] && Run(c, s, [e]) == Run(c, Step(c, s, e), []);
    } else {
      assert (events + [e])[0] == events[0] && (events + [e])[1..] == events[1..] + [e];
      RunLast(c, Step(c, s, events[0]), events[1..], e);
    }
  }

  lemma Then(c: Config, s: State, e: Event)
    requires Reachable(c, s)
    ensures Reachable(c, Step(c, s, e))
  {
    var events :| After(c, events) == s;
    RunLast(c, Start(c), events, e);
    assert After(c, events + [e]) == Step(c, s, e);
  }

  const OLDER := Log(0, 0, 0, 7, 1, 2, Transfer)
  const NEWER := Log(1, 0, 1, 7, 1, 2, Transfer)
  const RACE := Config(0, 0, -1, {OLDER, NEWER}, (t, a, height) => height + 1)

  /** The first log fails and is recorded. */
  lemma OlderFails() returns (s: State)
    ensures s == State(0, 0, {}, {OLDER}, map[], map[], map[], map[], Idle, Resting) && Reachable(RACE, s)
  {
    s := Start(RACE);
    assert Reachable(RACE, s) by { assert After(RACE, []) == s; }
    hide Reachable;
    Then(RACE, s, OfLane(StartBatch(0, 0, [OLDER])));
    s := s.(lane := Inserting(Batch(0, 0, -1, {}), [OLDER]));
    Then(RACE, s, OfLane(InsertFails(false)));
    s := Step(RACE, s, OfLane(InsertFails(false)));
    assert s.failed == {OLDER} && s.lane == Inserting(Batch(0, 0, -1, {}), []);
    Then(RACE, s, OfLane(InsertsDone));
    assert TokensOf({}) == {};
    s := s.(lane := Choosing(Batch(0, 0, -1, {}), {}));
    Then(RACE, s, OfLane(SetCheckpoint));
    s := s.(checkpoint := 0, lane := Idle);
  }

  /** The retry job reads its balances at block 0, and the chain moves on. */
  lemma RetryReadsEarly() returns (s: State)
    ensures s == State(1, 0, {OLDER}, {OLDER}, map[7 := {}], map[], map[], map[], Idle,
                       Refreshing(OLDER, Reconcile(7, {}, map[1 := 0, 2 := 0])))
    ensures Reachable(RACE, s)
  {
    s := OlderFails();
    hide Reachable;
    Then(RACE, s, OfRetry(RetryStart(OLDER)));
    s := s.(retry := Replaying(OLDER));
    Then(RACE, s, OfRetry(RetryInsert));
    s := s.(events := {OLDER}, retry := Replayed(OLDER));
    Then(RACE, s, OfRetry(RetryEnsure));
    assert {OLDER.from, OLDER.to} - {ZERO_ADDRESS} == {1, 2};
    s := s.(counted := map[7 := {}], retry := Refreshing(OLDER, Reconcile(7, {1, 2}, map[])));
    Then(RACE, s, OfRetry(RetryRead(1)));
    assert {1, 2} - {1} == {2};
    s := s.(retry := Refreshing(OLDER, Reconcile(7, {2}, map[1 := 0])));
    Then(RACE, s, OfRetry(RetryRead(2)));
    assert {2} - {2} == {};
    s := s.(retry := Refreshing(OLDER, Reconcile(7, {}, map[1 := 0, 2 := 0])));
    Then(RACE, s, HeadAdvances(1));
    s := s.(head := 1);
  }

  /** The lane inserts the newer log and starts to reconcile. */
  lemma NewerInserted() returns (s: State)
    ensures s == State(1, 0, {OLDER, NEWER}, {OLDER}, map[7 := {}], map[], map[], map[],
                       Reconciling(Batch(1, 1, 0, {NEWER}), {7}, 7, {}, Reconcile(7, {1, 2}, map[])),
                       Refreshing(OLDER, Reconcile(7, {}, map[1 := 0, 2 := 0])))
    ensures Reachable(RACE, s)
  {
    s := RetryReadsEarly();
    hide Reachable;
    Then(RACE, s, OfLane(StartBatch(1, 1, [NEWER])));
    s := s.(lane := Inserting(Batch(1, 1, 0, {}), [NEWER]));
    Then(RACE, s, OfLane(InsertNext));
    var b := Batch(1, 1, 0, {NEWER});
    s := Step(RACE, s, OfLane(InsertNext));
    assert s.events == {OLDER, NEWER} && s.lane.batch.touched == {NEWER} && s.lane == Inserting(b, []);
    Then(RACE, s, OfLane(InsertsDone));
    assert TokensOf({NEWER}) == {7} by { assert NEWER.token in TokensOf({NEWER}); }
    s := s.(lane := Choosing(b, {7}));
    Then(RACE, s, OfLane(ChooseToken(7)));
    assert AddressesOf({NEWER}, 7) == {1, 2} by {
      assert NEWER in {NEWER} && NEWER.from == 1 && NEWER.to == 2;
    }
    s := s.(lane := Grouping(b, {7}, 7, {1, 2}));
    Then(RACE, s, OfLane(StartGroup({1, 2})));
    assert {1, 2} - {1, 2} == {} && {1, 2} - {ZERO_ADDRESS} == {1, 2};
    s := s.(lane := Reconciling(b, {7}, 7, {}, Reconcile(7, {1, 2}, map[])));
  }

  /** The lane stores balances read at block 1. */
  lemma NewerReconciled() returns (s: State)
    ensures s == State(1, 0, {OLDER, NEWER}, {OLDER}, map[7 := {}], map[(7, 1) := 2, (7, 2) := 2],
                       map[(7, 1) := 1, (7, 2) := 1], map[(7, 1) := 1, (7, 2) := 1],
                       Reconciling(Batch(1, 1, 0, {NEWER}), {7}, 7, {}, Reconcile(7, {}, map[])),
                       Refreshing(OLDER, Reconcile(7, {}, map[1 := 0, 2 := 0])))
    ensures Reachable(RACE, s)
  {
    s := NewerInserted();
    hide Reachable;
    Then(RACE, s, OfLane(LaneRead(1)));
    assert {1, 2} - {1} == {2};
    s := s.(lane := s.lane.(call := Reconcile(7, {2}, map[1 := 1])));
    Then(RACE, s, OfLane(LaneRead(2)));
    assert {2} - {2} == {};
    s := s.(lane := s.lane.(call := Reconcile(7, {}, map[1 := 1, 2 := 1])));
    Then(RACE, s, OfLane(LaneVisit(1)));
    assert map[1 := 1, 2 := 1] - {1} == map[2 := 1];
    s := s.(rows := map[(7, 1) := 2], stored := map[(7, 1) := 1], newest := map[(7, 1) := 1], lane := s.lane.(call := Reconcile(7, {}, map[2 := 1])));
    Then(RACE, s, OfLane(LaneVisit(2)));
    assert map[2 := 1] - {2} == map[];
    s := s.(rows := map[(7, 1) := 2, (7, 2) := 2], stored := map[(7, 1) := 1, (7, 2) := 1],
            newest := map[(7, 1) := 1, (7, 2) := 1], lane := s.lane.(call := Reconcile(7, {}, map[])));
  }

  /** The lane counts the newer log and moves the checkpoint past it. */
  lemma NewerCovered() returns (s: State)
    ensures s == State(1, 1, {OLDER, NEWER}, {OLDER}, map[7 := {OLDER, NEWER}], map[(7, 1) := 2, (7, 2) := 2],
                       map[(7, 1) := 1, (7, 2) := 1], map[(7, 1) := 1, (7, 2) := 1], Idle,
                       Refreshing(OLDER, Reconcile(7, {}, map[1 := 0, 2 := 0])))
    ensures Reachable(RACE, s)
  {
    s := NewerReconciled();
    hide Reachable;
    var b := Batch(1, 1, 0, {NEWER});
    Then(RACE, s, OfLane(GroupDone));
    s := s.(lane := Grouping(b, {7}, 7, {}));
    Then(RACE, s, OfLane(GroupsDone));
    s := s.(lane := Syncing(b, {7}, 7, false));
    Then(RACE, s, OfLane(SyncToken));
    assert OfToken({OLDER, NEWER}, 7) == {OLDER, NEWER} && {7} - {7} == {};
    s := s.(counted := map[7 := {OLDER, NEWER}], lane := Choosing(b, {}));
    Then(RACE, s, OfLane(SetCheckpoint));
    s := s.(checkpoint := 1, lane := Idle);
  }

  /** A run in which the retry job then stores what it read before: the newer log is below the
      checkpoint, settled and not in failed_events, and the row shows the balance before it. */
  lemma StoredBalanceCanPredateLog() returns (events: seq<Event>)
    ensures var s := After(RACE, events);
            && Due(RACE, NEWER) && NEWER.block <= s.checkpoint && NEWER !in s.failed && Settled(s, NEWER)
            && 1 in Tracked(NEWER) && !Includes(RACE, s, (7, 1), NEWER.block)
  {
    var s := NewerCovered();
    Then(RACE, s, OfRetry(RetryVisit(1)));
    var s' := Step(RACE, s, OfRetry(RetryVisit(1)));
    assert s'.rows == map[(7, 1) := 1, (7, 2) := 2] && s'.newest == map[(7, 1) := 1, (7, 2) := 1] && s'.head == 1;
    assert Settled(s', NEWER);
    events :| After(RACE, events) == s';
  }
}
