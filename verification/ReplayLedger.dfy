/**
 Conservation of claims: every row ever inserted is accounted for by one task that was let through,
 by an acknowledgement that was lost, or by a reply still under way, and is either still in the
 table or was counted by a sweep.
 */
module ReplayLedger {
  import opened Text
  import opened ReplayProtocol
  import opened ReplayStructure
  import opened ReplaySafety

  function InsertedBy(s: State): set<nat> {
    set k | 0 <= k < |s.statements| && Inserted(s, k)
  }

  function Outcome(s: State, delivery: Delivery): set<nat> {
    set k | 0 <= k < |s.statements| && Inserted(s, k) && s.statements[k].delivery == delivery
  }

  function GrantedTasks(s: State): set<nat> {
    set i | 0 <= i < |s.tasks| && Granted(s.tasks[i])
  }

  /** A one-to-one correspondence preserves size. */
  lemma {:induction false} SameSize(a: set<nat>, b: set<nat>, f: nat -> nat)
    requires forall x :: x in a ==> f(x) in b
    requires forall x, y :: x in a && y in a && x != y ==> f(x) != f(y)
    requires forall y :: y in b ==> exists x :: x in a && f(x) == y
    ensures |a| == |b|
  {
    if a == {} {
      assert b == {};
    } else {
      var x :| x in a;
      forall y | y in b - {f(x)}
        ensures exists z :: z in a - {x} && f(z) == y
      {
        var z :| z in a && f(z) == y;
        assert z in a - {x};
      }
      SameSize(a - {x}, b - {f(x)}, f);
      assert |a| == |a - {x}| + 1 && |b| == |b - {f(x)}| + 1;
    }
  }

  // Counting

  ghost predicate Counted(s: State) {
    && s.inserted == |InsertedBy(s)|
    && s.inserted == |s.table| + s.deleted
  }

  lemma SurvivorsCounted(table: map<Uuid, Row>, at: real)
    ensures var kept := Survivors(table, at);
            |table| == |kept| + |table.Keys - kept.Keys|
  {
    var kept := Survivors(table, at);
    assert kept.Keys <= table.Keys;
    assert table.Keys == kept.Keys + (table.Keys - kept.Keys);
    assert |table| == |table.Keys| && |kept| == |kept.Keys|;
  }

  lemma ExecuteInsertedBy(c: Config, s: State, k: nat)
    requires Enabled(c, s, Execute(k))
    ensures var after := Next(c, s, Execute(k));
            && k !in InsertedBy(s)
            && InsertedBy(after) == InsertedBy(s) + (if Inserted(after, k) then {k} else {})
  {
    var after := Next(c, s, Execute(k));
    forall j | 0 <= j < |s.statements| && j != k
      ensures Inserted(after, j) == Inserted(s, j)
    {
      OnlyThisVerdict(c, s, k, j);
    }
  }

  lemma ExecuteMovesRows(c: Config, s: State, k: nat)
    requires Enabled(c, s, Execute(k))
    ensures var after := Next(c, s, Execute(k));
            && after.inserted == s.inserted + (if Inserted(after, k) then 1 else 0)
            && after.inserted - |after.table| - after.deleted == s.inserted - |s.table| - s.deleted
  {
    var after := Next(c, s, Execute(k));
    match s.statements[k].effect
    case Insert(nonce, expires) =>
      if nonce !in s.table {
        assert after.table.Keys == s.table.Keys + {nonce};
        assert |after.table| == |after.table.Keys| && |s.table| == |s.table.Keys|;
      }
    case DeleteExpired =>
      SurvivorsCounted(s.table, s.clock);
    case Read =>
  }

  lemma ExecuteCounted(c: Config, s: State, k: nat)
    requires Counted(s) && Enabled(c, s, Execute(k))
    ensures Counted(Next(c, s, Execute(k)))
  {
    ExecuteInsertedBy(c, s, k);
    ExecuteMovesRows(c, s, k);
  }

  lemma OtherEventsCounted(c: Config, s: State, e: Event)
    requires Counted(s) && Enabled(c, s, e) && !e.Execute?
    ensures Counted(Next(c, s, e))
  {
    NothingForgotten(c, s, e);
    var after := Next(c, s, e);
    forall j: nat
      ensures j in InsertedBy(after) <==> j in InsertedBy(s)
    {
      if j < |s.statements| {
        assert after.statements[j].effect == s.statements[j].effect;
        assert after.statements[j].verdict == s.statements[j].verdict;
      } else if j < |after.statements| {
        assert after.statements[j].verdict.Unapplied?;
      }
    }
    assert InsertedBy(after) == InsertedBy(s);
  }

  lemma {:induction false} CountedHolds(c: Config, run: Run)
    requires Legal(c, run)
    ensures Counted(Last(c, run))
  {
    match run
    case Begin(s) =>
      assert InsertedBy(s) == {};
    case Then(before, e) =>
      CountedHolds(c, before);
      if e.Execute? {
        ExecuteCounted(c, Last(c, before), e.statement);
      } else {
        OtherEventsCounted(c, Last(c, before), e);
      }
  }

  // What the sweeps reported

  function Report(statement: Statement): nat {
    if statement.effect.DeleteExpired? && statement.verdict.Applied? then statement.verdict.rows else 0
  }

  /** The sum of the row counts the executed sweeps returned. */
  function Reported(statements: seq<Statement>): nat {
    if statements == [] then 0
    else Reported(statements[..|statements| - 1]) + Report(statements[|statements| - 1])
  }

  lemma {:induction false} ReportedUpdate(statements: seq<Statement>, k: nat, statement: Statement)
    requires k < |statements|
    ensures Reported(statements[k := statement]) == Reported(statements) - Report(statements[k]) + Report(statement)
  {
    var n := |statements| - 1;
    var after := statements[k := statement];
    if k < n {
      assert after[..n] == statements[..n][k := statement];
      ReportedUpdate(statements[..n], k, statement);
    } else {
      assert after[..n] == statements[..n];
    }
  }

  lemma {:induction false} ReportedSame(a: seq<Statement>, b: seq<Statement>)
    requires |a| <= |b| && forall k :: 0 <= k < |a| ==> Report(a[k]) == Report(b[k])
    requires forall k :: |a| <= k < |b| ==> Report(b[k]) == 0
    ensures Reported(a) == Reported(b)
  {
    if |a| < |b| {
      ReportedSame(a, b[..|b| - 1]);
    } else if a != [] {
      ReportedSame(a[..|a| - 1], b[..|b| - 1]);
    }
  }

  lemma ExecuteReports(c: Config, s: State, k: nat)
    requires Enabled(c, s, Execute(k)) && s.deleted == Reported(s.statements)
    ensures Next(c, s, Execute(k)).deleted == Reported(Next(c, s, Execute(k)).statements)
  {
    var after := Next(c, s, Execute(k));
    assert after.statements == s.statements[k := after.statements[k]];
    ReportedUpdate(s.statements, k, after.statements[k]);
  }

  lemma OthersReportNothing(c: Config, s: State, e: Event, k: nat)
    requires Enabled(c, s, e) && !e.Execute? && k < |Next(c, s, e).statements|
    ensures Report(Next(c, s, e).statements[k]) == if k < |s.statements| then Report(s.statements[k]) else 0
    ensures Next(c, s, e).deleted == s.deleted
  {
    StatementsOnlyGrow(c, s, e);
  }

  lemma ReportsKept(c: Config, s: State, e: Event)
    requires Enabled(c, s, e) && s.deleted == Reported(s.statements)
    ensures Next(c, s, e).deleted == Reported(Next(c, s, e).statements)
  {
    if e.Execute? {
      ExecuteReports(c, s, e.statement);
    } else {
      var after := Next(c, s, e);
      StatementsOnlyGrow(c, s, e);
      forall k | 0 <= k < |after.statements|
        ensures Report(after.statements[k]) == if k < |s.statements| then Report(s.statements[k]) else 0
      {
        OthersReportNothing(c, s, e, k);
      }
      ReportedSame(s.statements, after.statements);
    }
  }

  /** In every run the rows that left the table are the rows the sweeps reported, heard of or not. */
  lemma {:induction false} ReportsHold(c: Config, run: Run)
    requires Legal(c, run)
    ensures Last(c, run).deleted == Reported(Last(c, run).statements)
  {
    match run
    case Begin(s) =>
    case Then(before, e) =>
      ReportsHold(c, before);
      ReportsKept(c, Last(c, before), e);
  }

  // Who the rows belong to

  function StatementOf(s: State, i: nat): nat {
    if i < |s.tasks| then
      match s.tasks[i].pc
      case Answered(k, _) => k
      case Executed(k) => k
      case _ => 0
    else 0
  }

  lemma GrantedMatchesDelivered(c: Config, s: State)
    requires Structure(c, s)
    ensures |GrantedTasks(s)| == |Outcome(s, Delivered)|
  {
    var a, b, f := GrantedTasks(s), Outcome(s, Delivered), (i: nat) => StatementOf(s, i);
    forall i | i in a
      ensures f(i) in b && s.statements[f(i)].task == i
    {
      GrantedInserted(c, s, i);
    }
    forall k | k in b
      ensures exists i :: i in a && f(i) == k
    {
      assert StatementOk(c, s, k);
      var i := s.statements[k].task;
      assert TaskOk(c, s, i);
      assert s.tasks[i].job.Claim?;
      assert i in a && f(i) == k;
    }
    SameSize(a, b, f);
  }

  lemma OutcomesPartition(s: State)
    ensures |InsertedBy(s)| == |Outcome(s, Delivered)| + |Outcome(s, Lost)| + |Outcome(s, Waiting)|
  {
    var delivered, lost, waiting := Outcome(s, Delivered), Outcome(s, Lost), Outcome(s, Waiting);
    assert InsertedBy(s) == delivered + lost + waiting;
    assert delivered !! lost && delivered + lost !! waiting;
  }

  /**
   In every run: rows inserted = tasks let through + inserts whose reply was lost + inserts whose
   reply is under way; rows inserted = rows in the table + rows the sweeps reported; and no two tasks
   are let through by one row.
   */
  lemma ClaimsConserved(c: Config, run: Run)
    requires Legal(c, run)
    ensures var s := Last(c, run);
            && s.inserted == |GrantedTasks(s)| + |Outcome(s, Lost)| + |Outcome(s, Waiting)|
            && s.inserted == |s.table| + Reported(s.statements)
            && (forall i, j :: i in GrantedTasks(s) && j in GrantedTasks(s) && i != j ==>
                  StatementOf(s, i) != StatementOf(s, j))
            && (forall i :: i in GrantedTasks(s) ==>
                  Inserted(s, StatementOf(s, i)) && s.statements[StatementOf(s, i)].task == i)
  {
    var s := Last(c, run);
    StructureHolds(c, run);
    CountedHolds(c, run);
    ReportsHold(c, run);
    OutcomesPartition(s);
    GrantedMatchesDelivered(c, s);
    forall i | i in GrantedTasks(s)
      ensures Inserted(s, StatementOf(s, i)) && s.statements[StatementOf(s, i)].task == i
    {
      GrantedInserted(c, s, i);
    }
  }
}
