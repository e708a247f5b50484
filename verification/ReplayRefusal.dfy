/**
 Why a claim is refused: every `Ok(false)` can be traced to an earlier insert of the same nonce, and a
 request sent once is refused exactly when an insert of its own was executed and its reply lost.
 */
module ReplayRefusal {
  import opened Text
  import opened ReplayProtocol
  import opened ReplayStructure
  import opened ReplaySafety
  import opened ReplayAttempts
  import opened ReplaySweeps

  /** Statement `k` is a claim that found its nonce taken. */
  predicate FoundTaken(s: State, k: nat) {
    && k < |s.statements|
    && s.statements[k].effect.Insert?
    && s.statements[k].verdict.Applied? && s.statements[k].verdict.rows == 0
  }

  /** Statement `j` inserted the nonce of `k`, no later than `k` was executed. */
  predicate TakenBy(s: State, k: nat, j: nat) {
    && FoundTaken(s, k) && Inserted(s, j) && j != k
    && s.statements[j].effect.nonce == s.statements[k].effect.nonce
    && s.statements[j].verdict.at <= s.statements[k].verdict.at
  }

  ghost predicate RefusalsExplained(s: State) {
    forall k | 0 <= k < |s.statements| && FoundTaken(s, k) :: exists j :: TakenBy(s, k, j)
  }

  /** Verdicts are final, so an explanation stays one. */
  lemma ExplanationStays(s: State, t: State, k: nat, j: nat)
    requires StatementsGrow(s, t) && TakenBy(s, k, j)
    ensures TakenBy(t, k, j)
  {
  }

  lemma OldRefusal(c: Config, s: State, e: Event, k: nat)
    requires Enabled(c, s, e) && FoundTaken(Next(c, s, e), k) && e != Execute(k)
    ensures FoundTaken(s, k)
  {
    if e.Execute? {
      OnlyThisVerdict(c, s, e.statement, k);
    } else {
      StatementsOnlyGrow(c, s, e);
    }
  }

  /** A claim refused now is refused because of the row in the table. */
  lemma NewRefusal(c: Config, s: State, k: nat)
    requires Structure(c, s) && RowsAreClaims(s)
    requires Enabled(c, s, Execute(k)) && FoundTaken(Next(c, s, Execute(k)), k)
    ensures s.statements[k].effect.Insert? && s.statements[k].effect.nonce in s.table
    ensures TakenBy(Next(c, s, Execute(k)), k, s.table[s.statements[k].effect.nonce].statement)
  {
    var j := s.table[s.statements[k].effect.nonce].statement;
    assert StatementOk(c, s, j);
    OnlyThisVerdict(c, s, k, j);
  }

  lemma RefusalsKept(c: Config, s: State, e: Event)
    requires Structure(c, s) && RowsAreClaims(s) && RefusalsExplained(s) && Enabled(c, s, e)
    ensures RefusalsExplained(Next(c, s, e))
  {
    var after := Next(c, s, e);
    StatementsOnlyGrow(c, s, e);
    forall k | 0 <= k < |after.statements| && FoundTaken(after, k)
      ensures exists j :: TakenBy(after, k, j)
    {
      if e == Execute(k) {
        NewRefusal(c, s, k);
      } else {
        OldRefusal(c, s, e, k);
        var j :| TakenBy(s, k, j);
        ExplanationStays(s, after, k, j);
      }
    }
  }

  /** In every run, every refused claim has an earlier insert of its nonce to blame. */
  lemma {:induction false} RefusalsExplainedHolds(c: Config, run: Run)
    requires Legal(c, run)
    ensures RefusalsExplained(Last(c, run))
  {
    match run
    case Begin(s) =>
    case Then(before, e) =>
      RefusalsExplainedHolds(c, before);
      TableInvariantHolds(c, before);
      RefusalsKept(c, Last(c, before), e);
  }

  // Answered claims

  predicate AnsweredClaim(s: State, i: nat) {
    i < |s.tasks| && s.tasks[i].job.Claim? && s.tasks[i].pc.Answered?
  }

  predicate OwnLostInsert(s: State, i: nat, j: nat) {
    Inserted(s, j) && s.statements[j].task == i && s.statements[j].delivery.Lost?
  }

  /** An inserted row of the nonce of task `i` that is another task's, or its own with the reply lost. */
  predicate InTheWay(s: State, i: nat, j: nat)
    requires i < |s.tasks| && s.tasks[i].job.Claim?
  {
    && Inserted(s, j) && Some(s.statements[j].effect.nonce) == s.tasks[i].job.raw.nonce
    && (s.statements[j].task != i || s.statements[j].delivery.Lost?)
  }

  /** What an answered task has in its hands. */
  lemma AnswerInHand(c: Config, s: State, i: nat)
    requires Structure(c, s) && AnsweredClaim(s, i)
    ensures var k := s.tasks[i].pc.statement;
            && k < |s.statements| && s.statements[k].task == i
            && s.tasks[i].job.raw.nonce.Some?
            && s.statements[k].effect == EffectOf(c, s.tasks[i]) && s.statements[k].effect.Insert?
            && s.statements[k].verdict.Applied? && s.statements[k].verdict.rows == s.tasks[i].pc.rows
  {
    assert TaskOk(c, s, i);
  }

  /** An answered task's other statements have lost their replies. */
  lemma OtherRepliesLost(c: Config, s: State, i: nat, j: nat)
    requires Structure(c, s) && AnsweredClaim(s, i)
    requires j < |s.statements| && s.statements[j].task == i && j != s.tasks[i].pc.statement
    ensures s.statements[j].delivery.Lost?
  {
    assert StatementOk(c, s, j);
  }

  /** Whatever else happens: `Ok(false)` means another task's insert, or an insert of its own whose reply was lost. */
  lemma RefusedBecause(c: Config, run: Run, i: nat) returns (j: nat)
    requires Legal(c, run) && AnsweredClaim(Last(c, run), i) && Last(c, run).tasks[i].pc.rows == 0
    ensures InTheWay(Last(c, run), i, j)
    ensures TakenBy(Last(c, run), Last(c, run).tasks[i].pc.statement, j)
  {
    var s := Last(c, run);
    StructureHolds(c, run);
    RefusalsExplainedHolds(c, run);
    AnswerInHand(c, s, i);
    var k := s.tasks[i].pc.statement;
    assert FoundTaken(s, k);
    j :| TakenBy(s, k, j);
    if s.statements[j].task == i {
      OtherRepliesLost(c, s, i, j);
    }
  }

  // Replies that arrive

  /** No reply to a statement of task `i` was lost. */
  predicate NothingLost(s: State, i: nat) {
    forall k :: 0 <= k < |s.statements| && s.statements[k].task == i ==> !s.statements[k].delivery.Lost?
  }

  /** A task that has not read its client yet has sent nothing. */
  lemma NothingSentYet(c: Config, s: State, i: nat)
    requires Structure(c, s) && i < |s.tasks| && s.tasks[i].pc.Acquire?
    ensures NothingLost(s, i)
  {
    forall k | 0 <= k < |s.statements|
      ensures s.statements[k].task != i
    {
      assert StatementOk(c, s, k);
    }
  }

  lemma NewStatementsWait(c: Config, s: State, e: Event, k: nat)
    requires Enabled(c, s, e) && |s.statements| <= k < |Next(c, s, e).statements|
    ensures Next(c, s, e).statements[k].delivery.Waiting?
  {
    if !e.Send? {
      OnlySendAdds(c, s, e);
    }
  }

  /** Other tasks lose no reply of task `i`. */
  lemma OthersLoseNothing(c: Config, s: State, e: Event, i: nat)
    requires Structure(c, s) && Enabled(c, s, e) && Actor(e) != Some(i) && NothingLost(s, i)
    ensures NothingLost(Next(c, s, e), i)
  {
    var after := Next(c, s, e);
    StatementsOnlyGrow(c, s, e);
    forall k | 0 <= k < |after.statements| && after.statements[k].task == i
      ensures !after.statements[k].delivery.Lost?
    {
      if k < |s.statements| {
        DeliveryRespected(c, s, e, k);
      } else {
        NewStatementsWait(c, s, e, k);
      }
    }
  }

  // The only copy

  /** No other task claims the nonce of task `i`. */
  predicate OnlyCopy(s: State, i: nat)
    requires i < |s.tasks| && s.tasks[i].job.Claim?
  {
    forall j :: 0 <= j < |s.tasks| && j != i && s.tasks[j].job.Claim? ==>
      s.tasks[j].job.raw.nonce != s.tasks[i].job.raw.nonce
  }

  /** An insert carries the nonce of the task that asked for it. */
  lemma InsertOfItsTask(c: Config, s: State, j: nat)
    requires Structure(c, s) && Inserted(s, j)
    ensures var i := s.statements[j].task;
            && i < |s.tasks| && s.tasks[i].job.Claim? && s.tasks[i].job.raw.nonce.Some?
            && s.statements[j].effect == EffectOf(c, s.tasks[i])
  {
    assert StatementOk(c, s, j);
  }

  /** Two inserts of task `i` itself, with a sweep between them that came after their common expiry. */
  predicate Reinsertion(s: State, i: nat, j: nat, k: nat, d: nat) {
    && Inserted(s, j) && Inserted(s, k) && j != k
    && s.statements[j].task == i && s.statements[k].task == i
    && SweptBetween(s, j, k, d)
  }

  ghost predicate Reinserted(s: State, i: nat) {
    exists j: nat, k: nat, d: nat :: Reinsertion(s, i, j, k, d)
  }

  /** An only copy let through despite an own lost insert owes it to a sweep after its expiry. */
  lemma LetThroughDespiteLoss(c: Config, run: Run, i: nat, j: nat)
    requires Legal(c, run) && AnsweredClaim(Last(c, run), i) && Last(c, run).tasks[i].pc.rows > 0
    requires OwnLostInsert(Last(c, run), i, j)
    ensures Reinserted(Last(c, run), i)
  {
    var s := Last(c, run);
    TableInvariantHolds(c, run);
    AnswerInHand(c, s, i);
    InsertOfItsTask(c, s, j);
    assert TaskOk(c, s, i);
    var k := s.tasks[i].pc.statement;
    assert Inserted(s, k) && j != k;
    TwoInsertsSweptHolds(c, run, j, k);
    var d: nat :| SweptBetween(s, j, k, d) || SweptBetween(s, k, j, d);
    assert Reinsertion(s, i, j, k, d) || Reinsertion(s, i, k, j, d);
  }

  /** Of two own inserts one is the answered statement: a task sends two statements at most. */
  lemma ReinsertedIsAnswered(c: Config, run: Run, i: nat)
    requires Legal(c, run) && AnsweredClaim(Last(c, run), i) && Reinserted(Last(c, run), i)
    ensures Last(c, run).tasks[i].pc.rows > 0
  {
    var s := Last(c, run);
    StructureHolds(c, run);
    AnswerInHand(c, s, i);
    var j: nat, k: nat, d: nat :| Reinsertion(s, i, j, k, d);
    AtMostTwoAttempts(c, run, j, k, s.tasks[i].pc.statement);
  }

  /**
   Exactly when the only copy of a request is refused as a replay: it inserted its own row, the reply was
   lost, and no sweep after the request's expiry made room for its second attempt.
   */
  lemma RefusedIff(c: Config, run: Run, i: nat)
    requires Legal(c, run) && AnsweredClaim(Last(c, run), i) && OnlyCopy(Last(c, run), i)
    ensures var s := Last(c, run);
            s.tasks[i].pc.rows == 0 <==> (exists j :: OwnLostInsert(s, i, j)) && !Reinserted(s, i)
  {
    var s := Last(c, run);
    StructureHolds(c, run);
    if s.tasks[i].pc.rows == 0 {
      var j := RefusedBecause(c, run, i);
      InsertOfItsTask(c, s, j);
      assert OwnLostInsert(s, i, j);
      if Reinserted(s, i) {
        ReinsertedIsAnswered(c, run, i);
      }
    } else if j :| OwnLostInsert(s, i, j) {
      LetThroughDespiteLoss(c, run, i, j);
    }
  }

  /** Every row task `i` inserted was inserted by its expiry. */
  predicate NoLateInsert(s: State, i: nat) {
    forall j | 0 <= j < |s.statements| && Inserted(s, j) && s.statements[j].task == i :: !Late(s, j)
  }

  /** For a task whose inserts all came in time, the lost reply alone decides. */
  lemma RefusedInTimeIff(c: Config, run: Run, i: nat)
    requires Legal(c, run) && AnsweredClaim(Last(c, run), i)
    requires OnlyCopy(Last(c, run), i) && NoLateInsert(Last(c, run), i)
    ensures var s := Last(c, run);
            s.tasks[i].pc.rows == 0 <==> exists j :: OwnLostInsert(s, i, j)
  {
    var s := Last(c, run);
    RefusedIff(c, run, i);
    StructureHolds(c, run);
    if Reinserted(s, i) {
      var j: nat, k: nat, d: nat :| Reinsertion(s, i, j, k, d);
      InsertOfItsTask(c, s, j);
      InsertOfItsTask(c, s, k);
    }
  }

  /** Without a condition on lateness one direction remains: with no reply lost, the only copy is let through. */
  lemma OnlyCopyLetThrough(c: Config, run: Run, i: nat)
    requires Legal(c, run) && AnsweredClaim(Last(c, run), i) && OnlyCopy(Last(c, run), i)
    requires forall j :: !OwnLostInsert(Last(c, run), i, j)
    ensures Granted(Last(c, run).tasks[i])
  {
    var s := Last(c, run);
    if s.tasks[i].pc.rows == 0 {
      StructureHolds(c, run);
      var j := RefusedBecause(c, run, i);
      InsertOfItsTask(c, s, j);
      assert OwnLostInsert(s, i, j);
    }
  }
}
