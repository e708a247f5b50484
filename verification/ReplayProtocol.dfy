/**
 The replay protocol as a state machine: any number of tasks on any number of replicas, one nonce
 table, a real-valued clock, and per replica a shared database client that is replaced under a
 mutex.  A task is one execution of `verify_service_request` (a claim), of one cleanup tick (a
 sweep) or of the readiness check (a probe).  All three run a statement through the same client
 code: take the shared client, run the statement, and on a lost connection reconnect and run it
 once more.  Between any two `await`s of one task every other task may move.

 A statement is executed by the server at a moment of its own: before its reply, after the task
 gave up on it, or never.  Replies may be lost, connections may close at any time, and a task may
 be dropped at any `await`.
 */
module ReplayProtocol {
  import opened Text
  import opened Signing
  import opened Gate

  /** `skew` is the configured window, `slack` the seconds added to the expiry (1 in the source). */
  datatype Config = Config(mac: Mac, skew: int, slack: int)

  const SOURCE_SLACK := 1

  ghost predicate ValidConfig(c: Config) {
    0 < c.skew <= EXACT_SECONDS / 32 && 0 <= c.slack <= EXACT_SECONDS / 32
  }

  /** Clock readings stay below this bound, so every expiry is an exact number of seconds. */
  const HORIZON: real := (EXACT_SECONDS / 8) as real

  datatype Job = Claim(raw: RawRequest) | Sweep | Probe

  /** Where a task stands.  `retry` marks the second attempt; `failed` is the client it gave up on. */
  datatype Pc =
    | Arrived
    | Refused
    | Acquire
    | LockWait(failed: nat, retry: bool)
    | Locked(failed: nat, retry: bool)
    | Connecting(failed: nat, checked: nat, retry: bool)
    | Installing(failed: nat, checked: nat, spare: nat, retry: bool)
    | Ready(client: nat, retry: bool)
    | Awaiting(client: nat, retry: bool, statement: nat)
    | Answered(statement: nat, rows: nat)
    | Executed(statement: nat)
    | Failed

  /** `timestamp` and `reading` (the clock value `now` was computed from) are set by sampling. */
  datatype Task = Task(replica: nat, job: Job, timestamp: int, reading: real, pc: Pc)

  datatype Effect = Insert(nonce: Uuid, expires: int) | DeleteExpired | Read

  /** `rows` is what the server reports: rows returned or deleted. */
  datatype Verdict = Unapplied | Applied(rows: nat, at: real)

  datatype Delivery = Waiting | Delivered | Lost

  /** Sent by `task` on the connection `client`. */
  datatype Statement = Statement(task: nat, client: nat, effect: Effect, verdict: Verdict, delivery: Delivery)

  datatype Row = Row(expires: int, statement: nat, insertedAt: real)

  /** One `Client`; `suspect` records that a query on it failed with a shutdown code. */
  datatype Generation = Generation(
    replica: nat, closed: bool, suspect: bool, installed: bool, replaced: bool)

  datatype Replica = Replica(current: nat, holder: Option<nat>)

  datatype State = State(
    clock: real,
    table: map<Uuid, Row>,
    tasks: seq<Task>,
    statements: seq<Statement>,
    generations: seq<Generation>,
    replicas: seq<Replica>,
    lastSweep: real,
    inserted: nat,
    deleted: nat)

  datatype Event =
    | Tick(to: real)
    | Arrive(replica: nat, job: Job)
    | Sample(task: nat, reading: real)
    | ReadClient(task: nat)
    | Lock(task: nat)
    | Check(task: nat)
    | Connect(task: nat, ok: bool)
    | Install(task: nat)
    | Send(task: nat)
    | Execute(statement: nat)
    | Reply(task: nat)
    | Lose(task: nat, shutdown: bool)
    | Close(generation: nat)
    | Forward(task: nat)
    | Drop(task: nat)

  // Reading the state

  predicate Critical(pc: Pc) {
    pc.Locked? || pc.Connecting? || pc.Installing?
  }

  predicate Terminal(pc: Pc) {
    pc.Refused? || pc.Answered? || pc.Executed? || pc.Failed?
  }

  /** `claim` returned `Ok(true)` to this task; `Executed` is `next.run`. */
  predicate Granted(t: Task) {
    t.job.Claim? && (t.pc.Executed? || (t.pc.Answered? && t.pc.rows > 0))
  }

  function EffectOf(c: Config, t: Task): Effect
    requires t.job.Claim? ==> t.job.raw.nonce.Some?
  {
    match t.job
    case Claim(raw) => Insert(raw.nonce.value, Expiry(t.timestamp, c.skew, c.slack))
    case Sweep => DeleteExpired
    case Probe => Read
  }

  predicate Usable(s: State, i: nat) {
    && i < |s.tasks|
    && s.tasks[i].replica < |s.replicas|
    && s.replicas[s.tasks[i].replica].current < |s.generations|
    && (s.tasks[i].job.Claim? ==> s.tasks[i].job.raw.nonce.Some? || s.tasks[i].pc.Arrived?)
  }

  function CurrentOf(s: State, i: nat): nat
    requires Usable(s, i)
  {
    s.replicas[s.tasks[i].replica].current
  }

  predicate Closed(s: State, g: nat) {
    g < |s.generations| && s.generations[g].closed
  }

  // Initial states

  /** Every replica starts with one open connection, as `connect` leaves it; the table may only be empty. */
  ghost predicate Init(s: State) {
    && 0.0 <= s.clock < HORIZON
    && s.lastSweep == s.clock
    && s.table == map[] && s.tasks == [] && s.statements == []
    && s.inserted == 0 && s.deleted == 0
    && |s.generations| == |s.replicas|
    && (forall r :: 0 <= r < |s.replicas| ==>
          && s.replicas[r] == Replica(r, None)
          && s.generations[r] == Generation(r, false, false, true, false))
  }

  // Steps

  predicate Enabled(c: Config, s: State, e: Event) {
    match e
    case Tick(to) => s.clock <= to < HORIZON
    case Arrive(r, _) => r < |s.replicas|
    case Sample(i, reading) => Usable(s, i) && s.tasks[i].pc.Arrived? && 0.0 <= reading < HORIZON
    case ReadClient(i) => Usable(s, i) && s.tasks[i].pc.Acquire?
    case Lock(i) =>
      Usable(s, i) && s.tasks[i].pc.LockWait? && s.replicas[s.tasks[i].replica].holder.None?
    case Check(i) => Usable(s, i) && s.tasks[i].pc.Locked?
    case Connect(i, _) => Usable(s, i) && s.tasks[i].pc.Connecting?
    case Install(i) => Usable(s, i) && s.tasks[i].pc.Installing? && s.tasks[i].pc.spare < |s.generations|
    case Send(i) => Usable(s, i) && s.tasks[i].pc.Ready?
    case Execute(k) => k < |s.statements| && s.statements[k].verdict.Unapplied?
    case Reply(i) =>
      && Usable(s, i) && s.tasks[i].pc.Awaiting?
      && s.tasks[i].pc.statement < |s.statements|
      && s.statements[s.tasks[i].pc.statement].verdict.Applied?
    case Lose(i, _) =>
      && Usable(s, i) && s.tasks[i].pc.Awaiting?
      && s.tasks[i].pc.statement < |s.statements|
      && s.tasks[i].pc.client < |s.generations|
    case Close(g) => g < |s.generations|
    case Forward(i) => Usable(s, i) && s.tasks[i].job.Claim? && s.tasks[i].pc.Answered? && s.tasks[i].pc.rows > 0
    case Drop(i) =>
      && Usable(s, i) && !Terminal(s.tasks[i].pc)
      && (s.tasks[i].pc.Awaiting? ==> s.tasks[i].pc.statement < |s.statements|)
  }

  function Move(s: State, i: nat, pc: Pc): State
    requires i < |s.tasks|
  {
    s.(tasks := s.tasks[i := s.tasks[i].(pc := pc)])
  }

  function SetHolder(s: State, i: nat, holder: Option<nat>): State
    requires Usable(s, i)
  {
    var r := s.tasks[i].replica;
    s.(replicas := s.replicas[r := s.replicas[r].(holder := holder)])
  }

  /** `client()`: the shared client if it is open, otherwise off to `reconnect`. */
  function AfterRead(s: State, i: nat): Pc
    requires Usable(s, i)
  {
    var current := CurrentOf(s, i);
    if Closed(s, current) then LockWait(current, false) else Ready(current, false)
  }

  /** Under the mutex: use the current client if another task already replaced the failed one. */
  function AfterCheck(s: State, i: nat): Pc
    requires Usable(s, i) && s.tasks[i].pc.Locked?
  {
    var current, pc := CurrentOf(s, i), s.tasks[i].pc;
    if current != pc.failed && !Closed(s, current) then Ready(current, pc.retry)
    else Connecting(pc.failed, current, pc.retry)
  }

  /** `should_reconnect` and the single retry. */
  function AfterError(s: State, client: nat, retry: bool, shutdown: bool): Pc {
    if !retry && (Closed(s, client) || shutdown) then LockWait(client, true) else Failed
  }

  /** Records that a query on client `g` failed with a shutdown code. */
  function Suspect(s: State, g: nat, shutdown: bool): State {
    if shutdown && g < |s.generations| then
      s.(generations := s.generations[g := s.generations[g].(suspect := true)])
    else s
  }

  function Deliver(s: State, k: nat, delivery: Delivery): State
    requires k < |s.statements|
  {
    s.(statements := s.statements[k := s.statements[k].(delivery := delivery)])
  }

  function Survivors(table: map<Uuid, Row>, at: real): map<Uuid, Row> {
    map n | n in table && !Expired(table[n].expires, at) :: table[n]
  }

  /** The server executes statement `k` at the current time. */
  function Perform(s: State, k: nat): State
    requires k < |s.statements|
  {
    var statement := s.statements[k];
    match statement.effect
    case Insert(nonce, expires) =>
      if nonce in s.table then
        s.(statements := s.statements[k := statement.(verdict := Applied(0, s.clock))])
      else
        s.(statements := s.statements[k := statement.(verdict := Applied(1, s.clock))],
           table := s.table[nonce := Row(expires, k, s.clock)],
           inserted := s.inserted + 1)
    case DeleteExpired =>
      var kept := Survivors(s.table, s.clock);
      var removed := |s.table.Keys - kept.Keys|;
      s.(statements := s.statements[k := statement.(verdict := Applied(removed, s.clock))],
         table := kept,
         deleted := s.deleted + removed,
         lastSweep := s.clock)
    case Read =>
      s.(statements := s.statements[k := statement.(verdict := Applied(1, s.clock))])
  }

  /** The connection attempt of a lock holder succeeds: a new generation, not yet shared. */
  function Connected(s: State, i: nat): State
    requires Usable(s, i) && s.tasks[i].pc.Connecting?
  {
    var pc := s.tasks[i].pc;
    Move(s.(generations := s.generations + [Generation(s.tasks[i].replica, false, false, false, false)]),
         i, Installing(pc.failed, pc.checked, |s.generations|, pc.retry))
  }

  /** Whatever generation is current at the moment of the write is the one replaced. */
  function Installed(s: State, i: nat): State
    requires Usable(s, i) && s.tasks[i].pc.Installing? && s.tasks[i].pc.spare < |s.generations|
  {
    var r, spare, previous := s.tasks[i].replica, s.tasks[i].pc.spare, CurrentOf(s, i);
    var marked := s.generations[previous := s.generations[previous].(replaced := true)];
    Move(s.(generations := marked[spare := marked[spare].(installed := true)],
            replicas := s.replicas[r := Replica(spare, None)]),
         i, Ready(spare, s.tasks[i].pc.retry))
  }

  function Sent(c: Config, s: State, i: nat): State
    requires Usable(s, i) && s.tasks[i].pc.Ready?
  {
    var pc := s.tasks[i].pc;
    if Closed(s, pc.client) then Move(s, i, AfterError(s, pc.client, pc.retry, false)) else
    Move(s.(statements := s.statements + [Statement(i, pc.client, EffectOf(c, s.tasks[i]), Unapplied, Waiting)]),
         i, Awaiting(pc.client, pc.retry, |s.statements|))
  }

  function Sampled(c: Config, t: Task, reading: real): Task
    requires t.job.Claim?
  {
    match Admit(c.mac, t.job.raw, AsI64(NowUnixSeconds(reading)), c.skew)
    case Admitted(timestamp) => t.(timestamp := timestamp, reading := reading, pc := Acquire)
    case Rejected(_) => t.(reading := reading, pc := Refused)
  }

  function Dropped(s: State, i: nat): State
    requires Usable(s, i)
    requires s.tasks[i].pc.Awaiting? ==> s.tasks[i].pc.statement < |s.statements|
  {
    var pc := s.tasks[i].pc;
    Move(if Critical(pc) then SetHolder(s, i, None)
         else if pc.Awaiting? then Deliver(s, pc.statement, Lost)
         else s, i, Failed)
  }

  function Next(c: Config, s: State, e: Event): State
    requires Enabled(c, s, e)
  {
    match e
    case Tick(to) => s.(clock := to)
    case Arrive(r, job) =>
      s.(tasks := s.tasks + [Task(r, job, 0, 0.0, if job.Claim? then Arrived else Acquire)])
    case Sample(i, reading) =>
      if s.tasks[i].job.Claim? then s.(tasks := s.tasks[i := Sampled(c, s.tasks[i], reading)]) else s
    case ReadClient(i) => Move(s, i, AfterRead(s, i))
    case Lock(i) => Move(SetHolder(s, i, Some(i)), i, Locked(s.tasks[i].pc.failed, s.tasks[i].pc.retry))
    case Check(i) =>
      var pc := AfterCheck(s, i);
      Move(if pc.Ready? then SetHolder(s, i, None) else s, i, pc)
    case Connect(i, ok) =>
      if ok then Connected(s, i) else Move(SetHolder(s, i, None), i, Failed)
    case Install(i) => Installed(s, i)
    case Send(i) => Sent(c, s, i)
    case Execute(k) => Perform(s, k)
    case Reply(i) =>
      var k := s.tasks[i].pc.statement;
      Move(Deliver(s, k, Delivered), i, Answered(k, s.statements[k].verdict.rows))
    case Lose(i, shutdown) =>
      var pc := s.tasks[i].pc;
      Move(Suspect(Deliver(s, pc.statement, Lost), pc.client, shutdown),
           i, AfterError(s, pc.client, pc.retry, shutdown))
    case Close(g) => s.(generations := s.generations[g := s.generations[g].(closed := true)])
    case Forward(i) => Move(s, i, Executed(s.tasks[i].pc.statement))
    case Drop(i) => Dropped(s, i)
  }

  // Runs

  datatype Run = Begin(first: State) | Then(before: Run, event: Event)

  ghost function Last(c: Config, run: Run): State {
    match run
    case Begin(s) => s
    case Then(before, e) =>
      var s := Last(c, before);
      if Enabled(c, s, e) then Next(c, s, e) else s
  }

  ghost predicate Legal(c: Config, run: Run) {
    match run
    case Begin(s) => Init(s)
    case Then(before, e) => Legal(c, before) && Enabled(c, Last(c, before), e)
  }
}
