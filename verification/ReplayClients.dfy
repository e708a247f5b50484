/**
 A reconnect never hands back the client that was given up: the two statements of one task go over two
 different connections.
 */
module ReplayClients {
  import opened Text
  import opened ReplayProtocol
  import opened ReplayStructure

  ghost predicate NothingSent(s: State, i: nat) {
    forall k :: 0 <= k < |s.statements| ==> s.statements[k].task != i
  }

  /** Everything task `i` has sent went over client `g`. */
  ghost predicate SentOn(s: State, i: nat, g: nat) {
    forall k :: 0 <= k < |s.statements| && s.statements[k].task == i ==> s.statements[k].client == g
  }

  ghost predicate SentElsewhere(s: State, i: nat, g: nat) {
    forall k :: 0 <= k < |s.statements| && s.statements[k].task == i ==> s.statements[k].client != g
  }

  ghost predicate OwnClientsDistinct(s: State, i: nat) {
    forall j, k :: 0 <= j < k < |s.statements| && s.statements[j].task == i && s.statements[k].task == i ==>
      s.statements[j].client != s.statements[k].client
  }

  /** While a task is after a client, what it sent so far went over the one it gave up. */
  ghost predicate GivenUp(s: State, i: nat, failed: nat, retry: bool) {
    SentOn(s, i, failed) && (!retry ==> NothingSent(s, i))
  }

  ghost predicate PlaceOk(s: State, i: nat)
    requires i < |s.tasks|
  {
    match s.tasks[i].pc
    case Arrived => NothingSent(s, i)
    case Refused => NothingSent(s, i)
    case Acquire => NothingSent(s, i)
    case LockWait(failed, retry) => GivenUp(s, i, failed, retry)
    case Locked(failed, retry) => GivenUp(s, i, failed, retry)
    case Connecting(failed, _, retry) => GivenUp(s, i, failed, retry)
    case Installing(failed, _, _, retry) => GivenUp(s, i, failed, retry)
    case Ready(g, retry) => SentElsewhere(s, i, g) && (!retry ==> NothingSent(s, i))
    case Awaiting(g, retry, _) => !retry ==> SentOn(s, i, g)
    case _ => true
  }

  ghost predicate ClientsOk(s: State, i: nat)
    requires i < |s.tasks|
  {
    PlaceOk(s, i) && OwnClientsDistinct(s, i)
  }

  /** A step that sends nothing leaves every statement's sender and client alone. */
  ghost predicate SameSenders(s: State, t: State) {
    && |t.statements| == |s.statements|
    && forall k :: 0 <= k < |s.statements| ==>
         t.statements[k].task == s.statements[k].task && t.statements[k].client == s.statements[k].client
  }

  lemma SendersStay(c: Config, s: State, e: Event)
    requires Enabled(c, s, e) && |Next(c, s, e).statements| == |s.statements|
    ensures SameSenders(s, Next(c, s, e))
  {
    StatementsOnlyGrow(c, s, e);
  }

  lemma BystanderClients(s: State, t: State, i: nat)
    requires i < |s.tasks| && i < |t.tasks| && t.tasks[i] == s.tasks[i] && SameSenders(s, t) && ClientsOk(s, i)
    ensures ClientsOk(t, i)
  {
  }

  /** The steps of a reconnect end with another client than the one given up. */
  lemma ReconnectingClients(c: Config, s: State, e: Event, i: nat)
    requires Structure(c, s) && Enabled(c, s, e) && Actor(e) == Some(i) && Reconnects(e)
    requires i < |s.tasks| && ClientsOk(s, i)
    ensures i < |Next(c, s, e).tasks| && ClientsOk(Next(c, s, e), i)
  {
    var after := Next(c, s, e);
    assert TaskOk(c, s, i);
    ReconnectingSendsNothing(c, s, e);
    SendersStay(c, s, e);
    assert SameSenders(s, after);
  }

  lemma OtherStepsClients(c: Config, s: State, e: Event, i: nat)
    requires Structure(c, s) && Enabled(c, s, e) && Actor(e) == Some(i) && !Reconnects(e)
    requires i < |s.tasks| && ClientsOk(s, i) && |Next(c, s, e).statements| == |s.statements|
    ensures i < |Next(c, s, e).tasks| && ClientsOk(Next(c, s, e), i)
  {
    assert TaskOk(c, s, i);
    SendersStay(c, s, e);
  }

  lemma SendClients(c: Config, s: State, i: nat, j: nat)
    requires Structure(c, s) && Enabled(c, s, Send(i)) && j < |s.tasks| && ClientsOk(s, j)
    requires |Next(c, s, Send(i)).statements| != |s.statements|
    ensures j < |Next(c, s, Send(i)).tasks| && ClientsOk(Next(c, s, Send(i)), j)
  {
    var after := Next(c, s, Send(i));
    assert after.statements[..|s.statements|] == s.statements;
    assert after.statements[|s.statements|].client == s.tasks[i].pc.client;
  }

  lemma NewTaskClients(c: Config, s: State, e: Event, i: nat)
    requires Structure(c, s) && Enabled(c, s, e) && |s.tasks| <= i < |Next(c, s, e).tasks|
    ensures ClientsOk(Next(c, s, e), i)
  {
    forall k | 0 <= k < |s.statements|
      ensures s.statements[k].task != i
    {
      assert StatementOk(c, s, k);
    }
    assert e.Arrive?;
  }

  lemma TaskClients(c: Config, s: State, e: Event, i: nat)
    requires Structure(c, s) && Enabled(c, s, e) && i < |s.tasks| && ClientsOk(s, i)
    ensures i < |Next(c, s, e).tasks| && ClientsOk(Next(c, s, e), i)
  {
    if |Next(c, s, e).statements| != |s.statements| {
      if !e.Send? {
        OnlySendAdds(c, s, e);
      }
      SendClients(c, s, e.task, i);
    } else if Actor(e) != Some(i) {
      OthersStay(c, s, e, i);
      SendersStay(c, s, e);
      BystanderClients(s, Next(c, s, e), i);
    } else if Reconnects(e) {
      ReconnectingClients(c, s, e, i);
    } else {
      OtherStepsClients(c, s, e, i);
    }
  }

  lemma {:induction false} ClientsHold(c: Config, run: Run, i: nat)
    requires Legal(c, run) && i < |Last(c, run).tasks|
    ensures ClientsOk(Last(c, run), i)
  {
    match run
    case Begin(s) =>
    case Then(before, e) =>
      var s := Last(c, before);
      StructureHolds(c, before);
      if i < |s.tasks| {
        ClientsHold(c, before, i);
        TaskClients(c, s, e, i);
      } else {
        NewTaskClients(c, s, e, i);
      }
  }

  /** In every run no two statements of one task are sent on one client. */
  lemma EachAttemptItsOwnClient(c: Config, run: Run, j: nat, k: nat)
    requires Legal(c, run) && j < |Last(c, run).statements| && k < |Last(c, run).statements| && j != k
    requires Last(c, run).statements[j].task == Last(c, run).statements[k].task
    ensures Last(c, run).statements[j].client != Last(c, run).statements[k].client
  {
    var s := Last(c, run);
    StructureHolds(c, run);
    assert StatementOk(c, s, j);
    ClientsHold(c, run, s.statements[j].task);
  }
}
