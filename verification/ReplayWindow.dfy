/**
 Exactly when a request is let through once at most: the expiry must exceed the window by one second
 plus the longest time a claim may take from the clock reading to its execution.  With the source's
 slack of one second that leaves no time at all, so the guarantee rests on reading the clock and
 executing the claim at one instant.
 */
module ReplayWindow {
  import opened Text
  import opened Gate
  import opened ReplayProtocol
  import opened ReplaySafety

  /** One replica, one open connection, an empty table, at the epoch. */
  function Fresh(): State {
    State(0.0, map[], [], [], [Generation(0, false, false, true, false)], [Replica(0, None)], 0.0, 0, 0)
  }

  /** The single replica is reachable and nobody reconnects. */
  predicate Calm(s: State) {
    |s.replicas| == 1 && s.replicas[0] == Replica(0, None) && |s.generations| == 1 && !s.generations[0].closed
  }

  ghost predicate Fine(c: Config, run: Run, delay: real) {
    Legal(c, run) && PromptRun(c, run, delay)
  }

  lemma Extend(c: Config, run: Run, delay: real, e: Event) returns (longer: Run)
    requires Fine(c, run, delay) && Enabled(c, Last(c, run), e) && Prompt(Last(c, run), e, delay)
    ensures Fine(c, longer, delay) && Last(c, longer) == Next(c, Last(c, run), e)
  {
    longer := Then(run, e);
  }

  /** A task arrives; a claim is admitted on the current clock. */
  lemma Enter(c: Config, run: Run, delay: real, job: Job) returns (longer: Run)
    requires Fine(c, run, delay) && Calm(Last(c, run)) && !job.Probe?
    requires 0.0 <= Last(c, run).clock < HORIZON
    requires job.Claim? ==>
      && job.raw.nonce.Some?
      && Admit(c.mac, job.raw, AsI64(NowUnixSeconds(Last(c, run).clock)), c.skew) == Admitted(0)
    ensures Fine(c, longer, delay)
    ensures var s := Last(c, run);
            Last(c, longer) ==
            s.(tasks := s.tasks + [Task(0, job, 0, if job.Claim? then s.clock else 0.0, Acquire)])
  {
    var s := Last(c, run);
    var i := |s.tasks|;
    longer := Extend(c, run, delay, Arrive(0, job));
    if job.Claim? {
      longer := Extend(c, longer, delay, Sample(i, s.clock));
    }
    assert Last(c, longer).tasks[..i] == s.tasks;
  }

  /** A task arrives and sends its statement over the open connection. */
  lemma Submit(c: Config, run: Run, delay: real, job: Job) returns (longer: Run)
    requires Fine(c, run, delay) && Calm(Last(c, run)) && !job.Probe?
    requires 0.0 <= Last(c, run).clock < HORIZON
    requires job.Claim? ==>
      && job.raw.nonce.Some?
      && Admit(c.mac, job.raw, AsI64(NowUnixSeconds(Last(c, run).clock)), c.skew) == Admitted(0)
    ensures Fine(c, longer, delay)
    ensures var s, after := Last(c, run), Last(c, longer);
            var k := |s.statements|;
            var reading := if job.Claim? then s.clock else 0.0;
            var task := Task(0, job, 0, reading, Awaiting(0, false, k));
            after == s.(tasks := s.tasks + [task],
                        statements := s.statements + [Statement(|s.tasks|, 0, EffectOf(c, task), Unapplied, Waiting)])
  {
    var s := Last(c, run);
    var i := |s.tasks|;
    longer := Enter(c, run, delay, job);
    longer := Extend(c, longer, delay, ReadClient(i));
    longer := Extend(c, longer, delay, Send(i));
    assert Last(c, longer).tasks[..i] == s.tasks;
  }

  /** A claim whose nonce is free is executed and its reply received. */
  lemma Succeed(c: Config, run: Run, delay: real, i: nat) returns (longer: Run)
    requires Fine(c, run, delay) && Calm(Last(c, run))
    requires var s := Last(c, run);
             && i < |s.tasks| && s.tasks[i].job.Claim? && s.tasks[i].replica == 0
             && s.tasks[i].job.raw.nonce.Some?
             && s.tasks[i].pc.Awaiting? && s.tasks[i].pc.statement < |s.statements|
             && s.statements[s.tasks[i].pc.statement].task == i
             && s.statements[s.tasks[i].pc.statement].verdict.Unapplied?
             && s.statements[s.tasks[i].pc.statement].effect == EffectOf(c, s.tasks[i])
             && s.tasks[i].job.raw.nonce.value !in s.table
             && s.clock <= s.tasks[i].reading + delay
    ensures Fine(c, longer, delay) && Calm(Last(c, longer))
    ensures var s, after := Last(c, run), Last(c, longer);
            && |after.tasks| == |s.tasks| && Granted(after.tasks[i])
            && after.tasks[i].job == s.tasks[i].job && after.tasks[i].timestamp == s.tasks[i].timestamp
            && (forall j :: 0 <= j < |s.tasks| && j != i ==> after.tasks[j] == s.tasks[j])
            && |after.statements| == |s.statements|
            && (forall k :: 0 <= k < |s.statements| && k != s.tasks[i].pc.statement ==>
                  after.statements[k] == s.statements[k])
            && after.clock == s.clock
            && after.table == s.table[s.tasks[i].job.raw.nonce.value :=
                 Row(EffectOf(c, s.tasks[i]).expires, s.tasks[i].pc.statement, s.clock)]
  {
    var k := Last(c, run).tasks[i].pc.statement;
    longer := Extend(c, run, delay, Execute(k));
    longer := Extend(c, longer, delay, Reply(i));
  }

  /** The request of the counterexample: signed at the epoch, as the Go client would. */
  function EpochClaim(c: Config, nonce: Uuid): Job {
    Claim(ClientRequest(c.mac, 0, nonce, []))
  }

  lemma EpochClaimAdmitted(c: Config, nonce: Uuid, at: real)
    requires ValidConfig(c) && 0.0 <= at < (c.skew + 1) as real
    ensures Admit(c.mac, EpochClaim(c, nonce).raw, AsI64(NowUnixSeconds(at)), c.skew) == Admitted(0)
  {
    ClientRequestAdmittedIff(c.mac, 0, nonce, [], AsI64(NowUnixSeconds(at)), c.skew);
  }

  /** The request is let through at the epoch. */
  lemma FirstExecution(c: Config, delay: real, nonce: Uuid) returns (run: Run)
    requires ValidConfig(c) && 0.0 <= delay
    ensures Fine(c, run, delay) && Calm(Last(c, run))
    ensures var s := Last(c, run);
            && s.clock == 0.0
            && |s.tasks| == 1 && Granted(s.tasks[0])
            && s.tasks[0].job == EpochClaim(c, nonce) && s.tasks[0].timestamp == 0
            && |s.statements| == 1
            && s.table == map[nonce := Row(c.skew + c.slack, 0, 0.0)]
  {
    EpochClaimAdmitted(c, nonce, 0.0);
    run := Begin(Fresh());
    run := Submit(c, run, delay, EpochClaim(c, nonce));
    run := Succeed(c, run, delay, 0);
  }

  /** The copy is admitted at `sampledAt`; at `executedAt` a sweep removes the expired row. */
  lemma CopyOutlivesRow(c: Config, delay: real, nonce: Uuid, sampledAt: real, executedAt: real) returns (run: Run)
    requires ValidConfig(c) && 0.0 <= delay
    requires 0.0 <= sampledAt < (c.skew + 1) as real && sampledAt <= executedAt < HORIZON
    requires (c.skew + c.slack) as real < executedAt
    ensures Fine(c, run, delay) && Calm(Last(c, run))
    ensures var s := Last(c, run);
            var copy := Task(0, EpochClaim(c, nonce), 0, sampledAt, Awaiting(0, false, 1));
            && s.clock == executedAt && s.table == map[]
            && |s.tasks| == 3 && Granted(s.tasks[0])
            && s.tasks[0].job == EpochClaim(c, nonce) && s.tasks[0].timestamp == 0
            && s.tasks[1] == copy
            && |s.statements| == 3 && s.statements[1] == Statement(1, 0, EffectOf(c, copy), Unapplied, Waiting)
  {
    run := FirstExecution(c, delay, nonce);
    EpochClaimAdmitted(c, nonce, sampledAt);
    run := Extend(c, run, delay, Tick(sampledAt));
    run := Submit(c, run, delay, EpochClaim(c, nonce));
    run := Extend(c, run, delay, Tick(executedAt));
    run := Submit(c, run, delay, Sweep);
    run := Extend(c, run, delay, Execute(2));
    assert Last(c, run).table == map[];
  }

  /** If the copy's claim is executed no more than `delay` after it was admitted, the run is prompt and replays. */
  lemma ReplayRun(c: Config, delay: real, sampledAt: real, executedAt: real) returns (run: Run)
    requires ValidConfig(c) && 0.0 <= delay
    requires 0.0 <= sampledAt < (c.skew + 1) as real
    requires sampledAt <= executedAt <= sampledAt + delay && executedAt < HORIZON
    requires (c.skew + c.slack) as real < executedAt
    ensures Fine(c, run, delay) && !AtMostOnce(Last(c, run))
  {
    var nonce: Uuid := seq(36, i => if i == 8 || i == 13 || i == 18 || i == 23 then HYPHEN else 0x30);
    run := CopyOutlivesRow(c, delay, nonce, sampledAt, executedAt);
    run := Succeed(c, run, delay, 1);
    assert SameClaim(Last(c, run), 0, 1);
  }

  /** The guarantee holds in all prompt runs exactly when the slack covers one second and the delay. */
  lemma AtMostOnceIff(c: Config, delay: real)
    requires ValidConfig(c) && 0.0 <= delay
    ensures (forall run :: Fine(c, run, delay) ==> AtMostOnce(Last(c, run)))
            <==> 1.0 + delay <= c.slack as real
  {
    if 1.0 + delay <= c.slack as real {
      forall run | Fine(c, run, delay)
        ensures AtMostOnce(Last(c, run))
      {
        AtMostOnceHolds(c, run, delay);
      }
    } else {
      var spare := 1.0 + delay - c.slack as real;
      var step := if spare < 1.0 then spare / 2.0 else 0.5;
      var executedAt := (c.skew + c.slack) as real + step;
      var sampledAt := if executedAt < delay then 0.0 else executedAt - delay;
      var run := ReplayRun(c, delay, sampledAt, executedAt);
    }
  }

  /** As configured in the source: at most once in every run whose claims take no time, and in no wider class. */
  lemma SourceSlackAllowsNoDelay(c: Config, delay: real)
    requires ValidConfig(c) && c.slack == SOURCE_SLACK && 0.0 <= delay
    ensures (forall run :: Fine(c, run, delay) ==> AtMostOnce(Last(c, run))) <==> delay == 0.0
  {
    AtMostOnceIff(c, delay);
  }

  // Lost acknowledgements

  /** The request's row is inserted; its task has not heard of it. */
  lemma RowInserted(c: Config, nonce: Uuid) returns (run: Run)
    requires ValidConfig(c)
    ensures Fine(c, run, 0.0)
    ensures var s := Last(c, run);
            && s.tasks == [Task(0, EpochClaim(c, nonce), 0, 0.0, Awaiting(0, false, 0))]
            && s.clock == 0.0 && s.table == map[nonce := Row(c.skew + c.slack, 0, 0.0)]
            && |s.statements| == 1 && Inserted(s, 0) && s.statements[0].task == 0
            && s.generations == [Generation(0, false, false, true, false)]
            && s.replicas == [Replica(0, None)]
  {
    EpochClaimAdmitted(c, nonce, 0.0);
    run := Begin(Fresh());
    run := Submit(c, run, 0.0, EpochClaim(c, nonce));
    run := Extend(c, run, 0.0, Execute(0));
  }

  /** The claim is executed, then its connection closes before the reply arrives. */
  lemma AcknowledgementLost(c: Config, nonce: Uuid) returns (run: Run)
    requires ValidConfig(c)
    ensures Fine(c, run, 0.0)
    ensures var s := Last(c, run);
            && s.tasks == [Task(0, EpochClaim(c, nonce), 0, 0.0, LockWait(0, true))]
            && s.clock == 0.0 && s.table == map[nonce := Row(c.skew + c.slack, 0, 0.0)]
            && |s.statements| == 1 && Inserted(s, 0) && s.statements[0].task == 0 && s.statements[0].delivery.Lost?
            && s.generations == [Generation(0, true, false, true, false)]
            && s.replicas == [Replica(0, None)]
  {
    run := RowInserted(c, nonce);
    run := Extend(c, run, 0.0, Close(0));
    run := Extend(c, run, 0.0, Lose(0, false));
  }

  /** The task reconnects and is ready for its second attempt. */
  lemma Reconnected(c: Config, nonce: Uuid) returns (run: Run)
    requires ValidConfig(c)
    ensures Fine(c, run, 0.0)
    ensures var s := Last(c, run);
            && s.tasks == [Task(0, EpochClaim(c, nonce), 0, 0.0, Ready(1, true))]
            && s.clock == 0.0 && s.table == map[nonce := Row(c.skew + c.slack, 0, 0.0)]
            && |s.statements| == 1 && Inserted(s, 0) && s.statements[0].task == 0
            && |s.generations| == 2 && !s.generations[1].closed
            && s.replicas == [Replica(1, None)]
  {
    run := AcknowledgementLost(c, nonce);
    run := Extend(c, run, 0.0, Lock(0));
    run := Extend(c, run, 0.0, Check(0));
    run := Extend(c, run, 0.0, Connect(0, true));
    run := Extend(c, run, 0.0, Install(0));
  }

  /**
   The retry cannot tell its own row from a replay: there is a run in which the only copy of a request
   inserts its row and is nevertheless answered `Ok(false)`, so the request is never executed.
   */
  lemma LostAcknowledgementRefuses(c: Config) returns (run: Run)
    requires ValidConfig(c)
    ensures Legal(c, run)
    ensures var s := Last(c, run);
            && |s.tasks| == 1 && s.tasks[0].job.Claim? && s.tasks[0].pc == Answered(1, 0)
            && Inserted(s, 0) && s.statements[0].task == 0
  {
    var nonce: Uuid := seq(36, i => if i == 8 || i == 13 || i == 18 || i == 23 then HYPHEN else 0x30);
    run := Reconnected(c, nonce);
    run := Extend(c, run, 0.0, Send(0));
    run := Extend(c, run, 0.0, Execute(1));
    run := Extend(c, run, 0.0, Reply(0));
  }
}
