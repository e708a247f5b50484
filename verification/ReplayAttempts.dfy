/**
 The single retry: however often connections fail, a task sends at most two statements.
 */
module ReplayAttempts {
  import opened Text
  import opened ReplayProtocol
  import opened ReplayStructure

  function OwnStatements(s: State, i: nat): set<nat> {
    set k | 0 <= k < |s.statements| && s.statements[k].task == i
  }

  /** How many statements a task at this place can have sent. */
  function Allowance(pc: Pc): nat {
    match pc
    case Arrived => 0
    case Refused => 0
    case Acquire => 0
    case LockWait(_, retry) => if retry then 1 else 0
    case Locked(_, retry) => if retry then 1 else 0
    case Connecting(_, _, retry) => if retry then 1 else 0
    case Installing(_, _, _, retry) => if retry then 1 else 0
    case Ready(_, retry) => if retry then 1 else 0
    case Awaiting(_, retry, _) => if retry then 2 else 1
    case _ => 2
  }

  ghost predicate AttemptsBounded(s: State) {
    forall i :: 0 <= i < |s.tasks| ==> |OwnStatements(s, i)| <= Allowance(s.tasks[i].pc)
  }

  /** A step that sends nothing leaves every task with the statements it had. */
  lemma OwnStatementsStay(c: Config, s: State, e: Event)
    requires Enabled(c, s, e) && |Next(c, s, e).statements| == |s.statements|
    ensures forall i :: OwnStatements(Next(c, s, e), i) == OwnStatements(s, i)
  {
    StatementsOnlyGrow(c, s, e);
  }

  lemma SendAddsOne(c: Config, s: State, i: nat, j: nat)
    requires Enabled(c, s, Send(i)) && |Next(c, s, Send(i)).statements| != |s.statements|
    ensures OwnStatements(Next(c, s, Send(i)), j) == OwnStatements(s, j) + (if i == j then {|s.statements|} else {})
    ensures s.tasks[i].pc.Ready?
    ensures Next(c, s, Send(i)).tasks[i].pc == Awaiting(s.tasks[i].pc.client, s.tasks[i].pc.retry, |s.statements|)
  {
  }

  /** A step that sends nothing never lowers the allowance. */
  lemma AllowanceKept(c: Config, s: State, e: Event, i: nat)
    requires Structure(c, s) && Enabled(c, s, e) && i < |s.tasks| && |Next(c, s, e).statements| == |s.statements|
    ensures i < |Next(c, s, e).tasks| && Allowance(s.tasks[i].pc) <= Allowance(Next(c, s, e).tasks[i].pc)
  {
    if Actor(e) != Some(i) {
      OthersStay(c, s, e, i);
    } else {
      assert TaskOk(c, s, i);
    }
  }

  /** Nobody owns statements before it exists. */
  lemma NewTaskOwnsNothing(c: Config, s: State, e: Event, i: nat)
    requires Structure(c, s) && Enabled(c, s, e) && |s.tasks| <= i
    ensures OwnStatements(s, i) == {}
  {
    forall k | 0 <= k < |s.statements|
      ensures s.statements[k].task != i
    {
      assert StatementOk(c, s, k);
    }
  }

  lemma AttemptsKept(c: Config, s: State, e: Event)
    requires Structure(c, s) && AttemptsBounded(s) && Enabled(c, s, e)
    ensures AttemptsBounded(Next(c, s, e))
  {
    var after := Next(c, s, e);
    if !e.Send? {
      OnlySendAdds(c, s, e);
    }
    forall i | 0 <= i < |after.tasks|
      ensures |OwnStatements(after, i)| <= Allowance(after.tasks[i].pc)
    {
      if |after.statements| == |s.statements| {
        OwnStatementsStay(c, s, e);
        if i < |s.tasks| {
          AllowanceKept(c, s, e, i);
        } else {
          NewTaskOwnsNothing(c, s, e, i);
        }
      } else {
        SendAddsOne(c, s, e.task, i);
        if i != e.task {
          OthersStay(c, s, e, i);
        }
      }
    }
  }

  lemma {:induction false} AttemptsBoundedHolds(c: Config, run: Run)
    requires Legal(c, run)
    ensures AttemptsBounded(Last(c, run))
  {
    match run
    case Begin(s) =>
    case Then(before, e) =>
      AttemptsBoundedHolds(c, before);
      StructureHolds(c, before);
      AttemptsKept(c, Last(c, before), e);
  }

  lemma ThreeInSet(own: set<nat>, j: nat, k: nat, l: nat)
    requires j in own && k in own && l in own && j != k && k != l && j != l
    ensures |own| >= 3
  {
    assert own == {j, k, l} + (own - {j, k, l});
    assert |{j, k, l}| == 3;
  }

  /** In every run no task has sent three statements. */
  lemma AtMostTwoAttempts(c: Config, run: Run, j: nat, k: nat, l: nat)
    requires Legal(c, run)
    requires var n := |Last(c, run).statements|; j < n && k < n && l < n
    requires var s := Last(c, run).statements; s[j].task == s[k].task == s[l].task
    ensures j == k || k == l || j == l
  {
    var s := Last(c, run);
    var own := OwnStatements(s, s.statements[j].task);
    AttemptsBoundedHolds(c, run);
    StructureHolds(c, run);
    assert StatementOk(c, s, j);
    if j != k && k != l && j != l {
      ThreeInSet(own, j, k, l);
    }
  }
}
