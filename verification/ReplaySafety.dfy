/**
 No replay: what the nonce table guarantees in every run, and which runs let a request through once
 at most.
 */
module ReplaySafety {
  import opened Text
  import opened Gate
  import opened ReplayProtocol
  import opened ReplayStructure

  /** Statement `k` is a claim that inserted its row. */
  predicate Inserted(s: State, k: nat) {
    && k < |s.statements|
    && s.statements[k].effect.Insert?
    && s.statements[k].verdict.Applied? && s.statements[k].verdict.rows > 0
  }

  ghost predicate RowsAreClaims(s: State) {
    forall n :: n in s.table ==>
      && s.table[n].statement < |s.statements|
      && s.statements[s.table[n].statement].effect == Insert(n, s.table[n].expires)
      && s.statements[s.table[n].statement].verdict == Applied(1, s.table[n].insertedAt)
  }

  predicate Held(s: State, k: nat)
    requires Inserted(s, k)
  {
    var nonce := s.statements[k].effect.nonce;
    nonce in s.table && s.table[nonce].statement == k
  }

  /** Until it expires, an inserted row is in the table and nobody else's row takes its place. */
  ghost predicate RowsOutlastExpiry(s: State) {
    forall k | 0 <= k < |s.statements| && Inserted(s, k) ::
      Expired(s.statements[k].effect.expires, s.clock) || Held(s, k)
  }

  predicate Late(s: State, k: nat)
    requires Inserted(s, k)
  {
    Expired(s.statements[k].effect.expires, s.statements[k].verdict.at)
  }

  /** Of two claims that inserted the same nonce with the same expiry, one did so after that expiry. */
  ghost predicate OneInTimeInsert(s: State) {
    forall j, k | 0 <= j < |s.statements| && 0 <= k < |s.statements| && j != k && Inserted(s, j) && Inserted(s, k) ::
      s.statements[j].effect == s.statements[k].effect ==> Late(s, j) || Late(s, k)
  }

  ghost predicate TableInvariant(s: State) {
    RowsAreClaims(s) && RowsOutlastExpiry(s) && OneInTimeInsert(s)
  }

  /** Executing one statement leaves the record of every other statement alone. */
  lemma OnlyThisVerdict(c: Config, s: State, k: nat, j: nat)
    requires Enabled(c, s, Execute(k)) && j < |s.statements| && j != k
    ensures var after := Next(c, s, Execute(k));
            |after.statements| == |s.statements| && after.statements[j] == s.statements[j]
            && Inserted(after, j) == Inserted(s, j) && !Inserted(s, k)
  {
  }

  /** Every row after executing statement `k` was there before, or is the one `k` inserted. */
  lemma RowsAfterExecute(c: Config, s: State, k: nat, n: Uuid)
    requires Enabled(c, s, Execute(k)) && n in Next(c, s, Execute(k)).table
    ensures var after := Next(c, s, Execute(k));
            if n in s.table then after.table[n] == s.table[n]
            else
              && s.statements[k].effect.Insert? && s.statements[k].effect.nonce == n
              && after.table[n] == Row(s.statements[k].effect.expires, k, s.clock)
              && after.statements == s.statements[k := s.statements[k].(verdict := Applied(1, s.clock))]
  {
  }

  /** A row is gone after executing a statement only if it had expired. */
  lemma LiveRowsStay(c: Config, s: State, k: nat, n: Uuid)
    requires Enabled(c, s, Execute(k)) && n in s.table && !Expired(s.table[n].expires, s.clock)
    ensures var after := Next(c, s, Execute(k));
            after.clock == s.clock && n in after.table && after.table[n] == s.table[n]
  {
  }

  lemma ExecuteKeepsRows(c: Config, s: State, k: nat)
    requires RowsAreClaims(s) && Enabled(c, s, Execute(k))
    ensures RowsAreClaims(Next(c, s, Execute(k)))
  {
    var after := Next(c, s, Execute(k));
    forall n | n in after.table
      ensures after.table[n].statement < |after.statements|
      ensures after.statements[after.table[n].statement].effect == Insert(n, after.table[n].expires)
      ensures after.statements[after.table[n].statement].verdict == Applied(1, after.table[n].insertedAt)
    {
      RowsAfterExecute(c, s, k, n);
      if n in s.table {
        OnlyThisVerdict(c, s, k, s.table[n].statement);
      }
    }
  }

  lemma ExecutedHolds(c: Config, s: State, k: nat)
    requires Enabled(c, s, Execute(k)) && Inserted(Next(c, s, Execute(k)), k)
    ensures Held(Next(c, s, Execute(k)), k)
  {
  }

  lemma ExecuteKeepsLiveRows(c: Config, s: State, k: nat)
    requires RowsAreClaims(s) && RowsOutlastExpiry(s) && Enabled(c, s, Execute(k))
    ensures RowsOutlastExpiry(Next(c, s, Execute(k)))
  {
    var after := Next(c, s, Execute(k));
    forall j | 0 <= j < |after.statements| && Inserted(after, j)
      ensures Expired(after.statements[j].effect.expires, after.clock) || Held(after, j)
    {
      if j == k {
        ExecutedHolds(c, s, k);
      } else {
        OnlyThisVerdict(c, s, k, j);
        if !Expired(s.statements[j].effect.expires, s.clock) {
          LiveRowsStay(c, s, k, s.statements[j].effect.nonce);
        }
      }
    }
  }

  lemma ExecuteKeepsUniqueness(c: Config, s: State, k: nat)
    requires TableInvariant(s) && Enabled(c, s, Execute(k))
    ensures OneInTimeInsert(Next(c, s, Execute(k)))
  {
    var after := Next(c, s, Execute(k));
    forall i, j | 0 <= i < |after.statements| && 0 <= j < |after.statements| && i != j
                  && Inserted(after, i) && Inserted(after, j)
                  && after.statements[i].effect == after.statements[j].effect
      ensures Late(after, i) || Late(after, j)
    {
      if i != k {
        OnlyThisVerdict(c, s, k, i);
      }
      if j != k {
        OnlyThisVerdict(c, s, k, j);
      }
    }
  }

  lemma ExecuteKeepsTable(c: Config, s: State, k: nat)
    requires TableInvariant(s) && Enabled(c, s, Execute(k))
    ensures TableInvariant(Next(c, s, Execute(k)))
  {
    ExecuteKeepsRows(c, s, k);
    ExecuteKeepsLiveRows(c, s, k);
    ExecuteKeepsUniqueness(c, s, k);
  }

  /** Only the server decides a verdict and changes the table. */
  lemma OnlyExecuteDecides(c: Config, s: State, e: Event, k: nat)
    requires Enabled(c, s, e) && !e.Execute? && k < |Next(c, s, e).statements|
    ensures var after := Next(c, s, e);
            after.table == s.table && s.clock <= after.clock
            && Inserted(after, k) == Inserted(s, k)
            && (Inserted(s, k) ==>
                  && after.statements[k].effect == s.statements[k].effect
                  && after.statements[k].verdict == s.statements[k].verdict)
  {
    StatementsOnlyGrow(c, s, e);
  }

  lemma TableFrame(s: State, t: State)
    requires TableInvariant(s) && t.table == s.table && s.clock <= t.clock && StatementsGrow(s, t)
    requires forall k :: 0 <= k < |t.statements| ==> Inserted(t, k) == Inserted(s, k)
    requires forall k :: 0 <= k < |t.statements| && Inserted(s, k) ==>
               t.statements[k].effect == s.statements[k].effect && t.statements[k].verdict == s.statements[k].verdict
    ensures TableInvariant(t)
  {
  }

  lemma TableKept(c: Config, s: State, e: Event)
    requires Structure(c, s) && TableInvariant(s) && Enabled(c, s, e)
    ensures TableInvariant(Next(c, s, e))
  {
    if e.Execute? {
      ExecuteKeepsTable(c, s, e.statement);
    } else {
      var after := Next(c, s, e);
      StatementsOnlyGrow(c, s, e);
      forall k | 0 <= k < |after.statements|
        ensures after.table == s.table && s.clock <= after.clock && Inserted(after, k) == Inserted(s, k)
        ensures Inserted(s, k) ==>
          after.statements[k].effect == s.statements[k].effect && after.statements[k].verdict == s.statements[k].verdict
      {
        OnlyExecuteDecides(c, s, e, k);
      }
      TableFrame(s, after);
    }
  }

  lemma {:induction false} TableInvariantHolds(c: Config, run: Run)
    requires Legal(c, run)
    ensures Structure(c, Last(c, run)) && TableInvariant(Last(c, run))
  {
    StructureHolds(c, run);
    match run
    case Begin(s) =>
    case Then(before, e) =>
      TableInvariantHolds(c, before);
      TableKept(c, Last(c, before), e);
  }

  // Prompt runs

  /** A claim still waited for is executed at most `delay` seconds after the clock it was admitted on. */
  ghost predicate Prompt(s: State, e: Event, delay: real) {
    e.Execute? && e.statement < |s.statements| && s.statements[e.statement].task < |s.tasks|
    && s.statements[e.statement].effect.Insert? && s.statements[e.statement].delivery.Waiting? ==>
      s.clock <= s.tasks[s.statements[e.statement].task].reading + delay
  }

  ghost predicate PromptRun(c: Config, run: Run, delay: real) {
    match run
    case Begin(_) => true
    case Then(before, e) => PromptRun(c, before, delay) && Prompt(Last(c, before), e, delay)
  }

  /** Every claim whose outcome a task has seen, or still waits for, was executed before its expiry. */
  ghost predicate Punctual(s: State) {
    forall k | 0 <= k < |s.statements| && Inserted(s, k) && !s.statements[k].delivery.Lost? :: !Late(s, k)
  }

  /** The expiry an admitted claim asks for, relative to the clock reading it was admitted on. */
  lemma ExpiryOfAdmitted(c: Config, t: Task)
    requires ValidConfig(c) && Sound(c, t)
    ensures EffectOf(c, t).Insert?
    ensures EffectOf(c, t) == Insert(t.job.raw.nonce.value, t.timestamp + c.skew + c.slack)
    ensures ParseI64(t.job.raw.timestamp.value) == Some(t.timestamp)
    ensures t.reading < (t.timestamp + c.skew + 1) as real
    ensures t.timestamp as real <= t.reading + c.skew as real
  {
    AdmittedIsWellSigned(c.mac, t.job.raw, AsI64(NowUnixSeconds(t.reading)), c.skew);
    assert t.reading < EXACT_SECONDS as real;
    assert NowUnixSeconds(t.reading) as real <= t.reading;
    AcceptedBeforeExpiry(t.job.raw.timestamp.value, t.reading, c.skew, c.slack);
  }

  /** Every expiry a claim ever asks for is a whole number of seconds that `f64` holds exactly. */
  lemma ExpiriesExact(c: Config, run: Run, k: nat)
    requires ValidConfig(c) && Legal(c, run)
    requires k < |Last(c, run).statements| && Last(c, run).statements[k].effect.Insert?
    ensures -0x20_0000_0000_0000 < Last(c, run).statements[k].effect.expires < 0x20_0000_0000_0000
  {
    var s := Last(c, run);
    StructureHolds(c, run);
    assert StatementOk(c, s, k);
    ExpiryOfAdmitted(c, s.tasks[s.statements[k].task]);
  }

  /** A claim waited for, executed promptly, is executed by its expiry. */
  lemma PromptIsInTime(c: Config, s: State, k: nat, delay: real)
    requires ValidConfig(c) && 1.0 + delay <= c.slack as real
    requires Structure(c, s) && Enabled(c, s, Execute(k)) && Prompt(s, Execute(k), delay)
    requires Inserted(Next(c, s, Execute(k)), k) && !Next(c, s, Execute(k)).statements[k].delivery.Lost?
    ensures !Late(Next(c, s, Execute(k)), k)
  {
    assert StatementOk(c, s, k);
    var task := s.tasks[s.statements[k].task];
    assert TaskOk(c, s, s.statements[k].task);
    assert s.statements[k].delivery.Waiting?;
    ExpiryOfAdmitted(c, task);
    assert s.clock <= task.reading + delay;
  }

  /** A lost reply stays lost. */
  lemma StaysLost(c: Config, s: State, e: Event, k: nat)
    requires Structure(c, s) && Enabled(c, s, e) && k < |s.statements| && s.statements[k].delivery.Lost?
    ensures k < |Next(c, s, e).statements| && Next(c, s, e).statements[k].delivery.Lost?
  {
    if Actor(e).Some? {
      assert TaskOk(c, s, Actor(e).value);
    }
  }

  lemma PunctualKept(c: Config, s: State, e: Event, delay: real)
    requires ValidConfig(c) && 1.0 + delay <= c.slack as real
    requires Structure(c, s) && Punctual(s) && Enabled(c, s, e) && Prompt(s, e, delay)
    ensures Punctual(Next(c, s, e))
  {
    var after := Next(c, s, e);
    StatementsOnlyGrow(c, s, e);
    forall k | 0 <= k < |after.statements| && Inserted(after, k) && !after.statements[k].delivery.Lost?
      ensures !Late(after, k)
    {
      if e == Execute(k) {
        PromptIsInTime(c, s, k, delay);
      } else {
        if e.Execute? {
          OnlyThisVerdict(c, s, e.statement, k);
        } else {
          OnlyExecuteDecides(c, s, e, k);
        }
        if s.statements[k].delivery.Lost? {
          StaysLost(c, s, e, k);
        }
        assert Inserted(s, k) && !s.statements[k].delivery.Lost?;
      }
    }
  }

  lemma {:induction false} PunctualHolds(c: Config, run: Run, delay: real)
    requires ValidConfig(c) && 1.0 + delay <= c.slack as real
    requires Legal(c, run) && PromptRun(c, run, delay)
    ensures Punctual(Last(c, run))
  {
    match run
    case Begin(s) =>
    case Then(before, e) =>
      PunctualHolds(c, before, delay);
      StructureHolds(c, before);
      PunctualKept(c, Last(c, before), e, delay);
  }

  // At most once

  ghost predicate SameClaim(s: State, i: nat, j: nat)
    requires i < |s.tasks| && j < |s.tasks|
  {
    && s.tasks[i].job.Claim? && s.tasks[j].job.Claim?
    && s.tasks[i].job.raw.nonce == s.tasks[j].job.raw.nonce
    && s.tasks[i].timestamp == s.tasks[j].timestamp
  }

  /** No two tasks are let through with one nonce and one timestamp, on whatever replicas they run. */
  ghost predicate AtMostOnce(s: State) {
    forall i, j :: 0 <= i < j < |s.tasks| && Granted(s.tasks[i]) && Granted(s.tasks[j]) ==>
      !SameClaim(s, i, j)
  }

  /** A task that was let through has the reply of its own last statement, which inserted its row. */
  lemma GrantedInserted(c: Config, s: State, i: nat)
    requires Structure(c, s) && i < |s.tasks| && Granted(s.tasks[i])
    ensures var k := s.tasks[i].pc.statement;
            && Sound(c, s.tasks[i])
            && Inserted(s, k)
            && s.statements[k].task == i
            && s.statements[k].delivery.Delivered?
            && s.statements[k].effect ==
               Insert(s.tasks[i].job.raw.nonce.value, Expiry(s.tasks[i].timestamp, c.skew, c.slack))
  {
    assert TaskOk(c, s, i);
    assert s.tasks[i].pc.statement < |s.statements|;
    assert Sound(c, s.tasks[i]);
  }

  /** Whatever the slack: claims executed by their expiry are enough, even if the nonce was reused with another. */
  lemma AtMostOnceIfPunctual(c: Config, run: Run)
    requires Legal(c, run) && Punctual(Last(c, run))
    ensures AtMostOnce(Last(c, run))
  {
    var s := Last(c, run);
    TableInvariantHolds(c, run);
    forall i, j | 0 <= i < j < |s.tasks| && Granted(s.tasks[i]) && Granted(s.tasks[j])
      ensures !SameClaim(s, i, j)
    {
      GrantedInserted(c, s, i);
      GrantedInserted(c, s, j);
    }
  }

  lemma AtMostOnceHolds(c: Config, run: Run, delay: real)
    requires ValidConfig(c) && 1.0 + delay <= c.slack as real
    requires Legal(c, run) && PromptRun(c, run, delay)
    ensures AtMostOnce(Last(c, run))
  {
    PunctualHolds(c, run, delay);
    AtMostOnceIfPunctual(c, run);
  }

  /** One signature is honoured once: two granted tasks with one signature exhibit a MAC collision. */
  lemma OneSignatureOneExecution(c: Config, run: Run, delay: real, i: nat, j: nat)
    requires ValidConfig(c) && 1.0 + delay <= c.slack as real
    requires Legal(c, run) && PromptRun(c, run, delay)
    requires var s := Last(c, run);
             i < j < |s.tasks| && Granted(s.tasks[i]) && Granted(s.tasks[j])
             && s.tasks[i].job.raw.signature == s.tasks[j].job.raw.signature
    ensures var s := Last(c, run);
            && WellSigned(c.mac, s.tasks[i].job.raw) && WellSigned(c.mac, s.tasks[j].job.raw)
            && RequestCollision(c.mac, s.tasks[i].job.raw, s.tasks[j].job.raw)
  {
    var s := Last(c, run);
    AtMostOnceHolds(c, run, delay);
    StructureHolds(c, run);
    GrantedInserted(c, s, i);
    GrantedInserted(c, s, j);
    var a, b := s.tasks[i], s.tasks[j];
    AdmittedIsWellSigned(c.mac, a.job.raw, AsI64(NowUnixSeconds(a.reading)), c.skew);
    AdmittedIsWellSigned(c.mac, b.job.raw, AsI64(NowUnixSeconds(b.reading)), c.skew);
    SameSignatureSameRequest(c.mac, a.job.raw, b.job.raw);
    assert !SameClaim(s, i, j);
  }
}
