/**
 Only a sweep makes room: an inserted row is still in the table or a delete executed after its expiry
 removed it, and two rows of one nonce were inserted with such a delete between them.
 */
module ReplaySweeps {
  import opened Gate
  import opened ReplayProtocol
  import opened ReplayStructure
  import opened ReplaySafety

  /** The delete `d` was executed after the insert `j` and after its expiry. */
  predicate SweptBy(s: State, j: nat, d: nat)
    requires Inserted(s, j)
  {
    && d < |s.statements| && s.statements[d].effect.DeleteExpired? && s.statements[d].verdict.Applied?
    && s.statements[j].verdict.at <= s.statements[d].verdict.at
    && Expired(s.statements[j].effect.expires, s.statements[d].verdict.at)
  }

  predicate SweptBetween(s: State, j: nat, k: nat, d: nat)
    requires Inserted(s, j) && Inserted(s, k)
  {
    SweptBy(s, j, d) && s.statements[d].verdict.at <= s.statements[k].verdict.at
  }

  ghost predicate HeldOrSwept(s: State) {
    forall j | 0 <= j < |s.statements| && Inserted(s, j) :: Held(s, j) || exists d :: SweptBy(s, j, d)
  }

  ghost predicate SweptBetweenEither(s: State, j: nat, k: nat)
    requires Inserted(s, j) && Inserted(s, k)
  {
    exists d :: SweptBetween(s, j, k, d) || SweptBetween(s, k, j, d)
  }

  ghost predicate TwoInsertsSwept(s: State) {
    forall j, k | 0 <= j < |s.statements| && 0 <= k < |s.statements| && j != k && Inserted(s, j) && Inserted(s, k) ::
      s.statements[j].effect.nonce == s.statements[k].effect.nonce ==> SweptBetweenEither(s, j, k)
  }

  ghost predicate SweepsExplain(s: State) {
    HeldOrSwept(s) && TwoInsertsSwept(s)
  }

  // Verdicts are final, so what they explain stays explained

  lemma InsertedStays(s: State, t: State, j: nat)
    requires StatementsGrow(s, t) && Inserted(s, j)
    ensures Inserted(t, j) && t.statements[j].effect == s.statements[j].effect
            && t.statements[j].verdict == s.statements[j].verdict
  {
  }

  lemma SweptStays(s: State, t: State, j: nat, d: nat)
    requires StatementsGrow(s, t) && Inserted(s, j) && SweptBy(s, j, d)
    ensures Inserted(t, j) && SweptBy(t, j, d) && t.statements[d].verdict == s.statements[d].verdict
  {
    InsertedStays(s, t, j);
  }

  lemma SweptBetweenStays(s: State, t: State, j: nat, k: nat)
    requires StatementsGrow(s, t) && Inserted(s, j) && Inserted(s, k) && SweptBetweenEither(s, j, k)
    ensures Inserted(t, j) && Inserted(t, k) && SweptBetweenEither(t, j, k)
  {
    InsertedStays(s, t, j);
    InsertedStays(s, t, k);
    var d :| SweptBetween(s, j, k, d) || SweptBetween(s, k, j, d);
    if SweptBetween(s, j, k, d) {
      SweptStays(s, t, j, d);
      assert SweptBetween(t, j, k, d);
    } else {
      SweptStays(s, t, k, d);
      assert SweptBetween(t, k, j, d);
    }
  }

  // Executing a statement

  /** The delete executed now removes expired rows only, and nothing else removes a row. */
  lemma HeldOrRemoved(c: Config, s: State, k: nat, j: nat)
    requires Structure(c, s) && RowsAreClaims(s) && Enabled(c, s, Execute(k))
    requires Inserted(s, j) && Held(s, j) && j != k
    ensures var after := Next(c, s, Execute(k));
            Inserted(after, j) && (Held(after, j) || SweptBy(after, j, k))
  {
    assert StatementOk(c, s, j);
    OnlyThisVerdict(c, s, k, j);
  }

  lemma ExecuteHeldOrSwept(c: Config, s: State, k: nat)
    requires Structure(c, s) && RowsAreClaims(s) && HeldOrSwept(s) && Enabled(c, s, Execute(k))
    ensures HeldOrSwept(Next(c, s, Execute(k)))
  {
    var after := Next(c, s, Execute(k));
    StatementsOnlyGrow(c, s, Execute(k));
    forall j | 0 <= j < |after.statements| && Inserted(after, j)
      ensures Held(after, j) || exists d :: SweptBy(after, j, d)
    {
      if j == k {
        ExecutedHolds(c, s, k);
      } else {
        OnlyThisVerdict(c, s, k, j);
        if Held(s, j) {
          HeldOrRemoved(c, s, k, j);
        } else {
          var d :| SweptBy(s, j, d);
          SweptStays(s, after, j, d);
        }
      }
    }
  }

  /** A row inserted now takes the place of none: the earlier ones of its nonce were swept. */
  lemma NewInsertAfterSweep(c: Config, s: State, k: nat, j: nat)
    requires Structure(c, s) && HeldOrSwept(s) && Enabled(c, s, Execute(k)) && j != k && Inserted(s, j)
    requires Inserted(Next(c, s, Execute(k)), k)
    requires s.statements[k].effect.Insert? && s.statements[j].effect.nonce == s.statements[k].effect.nonce
    ensures var after := Next(c, s, Execute(k));
            Inserted(after, j) && SweptBetweenEither(after, j, k)
  {
    var after := Next(c, s, Execute(k));
    StatementsOnlyGrow(c, s, Execute(k));
    assert !Held(s, j);
    var d :| SweptBy(s, j, d);
    assert StatementOk(c, s, d);
    SweptStays(s, after, j, d);
    assert SweptBetween(after, j, k, d);
  }

  lemma ExecuteTwoInserts(c: Config, s: State, k: nat)
    requires Structure(c, s) && SweepsExplain(s) && Enabled(c, s, Execute(k))
    ensures TwoInsertsSwept(Next(c, s, Execute(k)))
  {
    var after := Next(c, s, Execute(k));
    StatementsOnlyGrow(c, s, Execute(k));
    forall i, j | 0 <= i < |after.statements| && 0 <= j < |after.statements| && i != j
                  && Inserted(after, i) && Inserted(after, j)
                  && after.statements[i].effect.nonce == after.statements[j].effect.nonce
      ensures SweptBetweenEither(after, i, j)
    {
      if i == k {
        OnlyThisVerdict(c, s, k, j);
        NewInsertAfterSweep(c, s, k, j);
      } else if j == k {
        OnlyThisVerdict(c, s, k, i);
        NewInsertAfterSweep(c, s, k, i);
      } else {
        OnlyThisVerdict(c, s, k, i);
        OnlyThisVerdict(c, s, k, j);
        SweptBetweenStays(s, after, i, j);
      }
    }
  }

  lemma OthersExplain(c: Config, s: State, e: Event)
    requires SweepsExplain(s) && Enabled(c, s, e) && !e.Execute?
    ensures SweepsExplain(Next(c, s, e))
  {
    var after := Next(c, s, e);
    StatementsOnlyGrow(c, s, e);
    forall j | 0 <= j < |after.statements| && Inserted(after, j)
      ensures Inserted(s, j) && (Held(after, j) || exists d :: SweptBy(after, j, d))
    {
      OnlyExecuteDecides(c, s, e, j);
      if !Held(s, j) {
        var d :| SweptBy(s, j, d);
        SweptStays(s, after, j, d);
      }
    }
    forall i, j | 0 <= i < |after.statements| && 0 <= j < |after.statements| && i != j
                  && Inserted(after, i) && Inserted(after, j)
                  && after.statements[i].effect.nonce == after.statements[j].effect.nonce
      ensures SweptBetweenEither(after, i, j)
    {
      SweptBetweenStays(s, after, i, j);
    }
  }

  /** In every run. */
  lemma {:induction false} SweepsExplainHolds(c: Config, run: Run)
    requires Legal(c, run)
    ensures SweepsExplain(Last(c, run))
  {
    match run
    case Begin(s) =>
    case Then(before, e) =>
      SweepsExplainHolds(c, before);
      TableInvariantHolds(c, before);
      if e.Execute? {
        ExecuteHeldOrSwept(c, Last(c, before), e.statement);
        ExecuteTwoInserts(c, Last(c, before), e.statement);
      } else {
        OthersExplain(c, Last(c, before), e);
      }
  }

  /** In every run two rows of one nonce were inserted with a delete between them, after the expiry of the earlier. */
  lemma TwoInsertsSweptHolds(c: Config, run: Run, j: nat, k: nat)
    requires Legal(c, run) && Inserted(Last(c, run), j) && Inserted(Last(c, run), k) && j != k
    requires Last(c, run).statements[j].effect.nonce == Last(c, run).statements[k].effect.nonce
    ensures SweptBetweenEither(Last(c, run), j, k)
  {
    SweepsExplainHolds(c, run);
  }
}
