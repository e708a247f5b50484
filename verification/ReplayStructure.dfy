/**
 What ties the parts of the replay protocol together in every reachable state: which client, mutex
 and statement a task at a given point holds, and who is responsible for a statement.
 */
module ReplayStructure {
  import opened Text
  import opened Gate
  import opened ReplayProtocol

  /** The task's request passed the gate at the recorded clock reading. */
  ghost predicate Sound(c: Config, t: Task) {
    && t.job.Claim?
    && 0.0 <= t.reading < HORIZON
    && Admit(c.mac, t.job.raw, AsI64(NowUnixSeconds(t.reading)), c.skew) == Admitted(t.timestamp)
  }

  /** A claim past the gate; a task dropped on arrival is not. */
  predicate Admissible(t: Task) {
    t.job.Claim? && !t.pc.Arrived? && !t.pc.Refused? && !t.pc.Failed?
  }

  /** Generation `g` was seen closed, or a query on it failed with a shutdown code. */
  predicate Blamed(s: State, g: nat) {
    g < |s.generations| && (s.generations[g].closed || s.generations[g].suspect)
  }

  ghost predicate Owns(c: Config, s: State, i: nat, k: nat)
    requires i < |s.tasks|
  {
    && k < |s.statements|
    && s.statements[k].task == i
    && (s.tasks[i].job.Claim? ==> Sound(c, s.tasks[i]))
    && s.statements[k].effect == EffectOf(c, s.tasks[i])
  }

  ghost predicate PcOk(c: Config, s: State, i: nat)
    requires i < |s.tasks| && s.tasks[i].replica < |s.replicas|
  {
    var current := s.replicas[s.tasks[i].replica].current;
    match s.tasks[i].pc
    case Arrived => s.tasks[i].job.Claim?
    case Refused => s.tasks[i].job.Claim?
    case Acquire => true
    case LockWait(failed, _) => Blamed(s, failed)
    case Locked(failed, _) => Blamed(s, failed)
    case Connecting(failed, checked, _) =>
      && checked == current && Blamed(s, checked) && (checked == failed || Closed(s, checked))
      && failed < |s.generations|
    case Installing(failed, checked, spare, _) =>
      && checked == current && Blamed(s, checked) && (checked == failed || Closed(s, checked))
      && spare < |s.generations| && spare != failed
      && s.generations[spare].replica == s.tasks[i].replica
      && !s.generations[spare].installed && !s.generations[spare].replaced
    case Ready(client, _) => client < |s.generations|
    case Awaiting(client, _, k) =>
      client < |s.generations| && Owns(c, s, i, k) && s.statements[k].delivery.Waiting?
    case Answered(k, rows) =>
      && Owns(c, s, i, k) && s.statements[k].delivery.Delivered?
      && s.statements[k].verdict.Applied? && s.statements[k].verdict.rows == rows
    case Executed(k) =>
      && s.tasks[i].job.Claim?
      && Owns(c, s, i, k) && s.statements[k].delivery.Delivered?
      && s.statements[k].verdict.Applied? && s.statements[k].verdict.rows > 0
    case Failed => true
  }

  ghost predicate TaskOk(c: Config, s: State, i: nat)
    requires i < |s.tasks|
  {
    && s.tasks[i].replica < |s.replicas|
    && (Admissible(s.tasks[i]) ==> Sound(c, s.tasks[i]))
    && (Critical(s.tasks[i].pc) ==> s.replicas[s.tasks[i].replica].holder == Some(i))
    && PcOk(c, s, i)
  }

  ghost predicate ReplicaOk(s: State, r: nat)
    requires r < |s.replicas|
  {
    var current, holder := s.replicas[r].current, s.replicas[r].holder;
    && current < |s.generations|
    && s.generations[current].replica == r
    && s.generations[current].installed && !s.generations[current].replaced
    && (holder.Some? ==>
          && holder.value < |s.tasks|
          && s.tasks[holder.value].replica == r
          && Critical(s.tasks[holder.value].pc))
  }

  ghost predicate GenerationOk(s: State, g: nat)
    requires g < |s.generations|
  {
    var gen := s.generations[g];
    && gen.replica < |s.replicas|
    && (gen.installed && !gen.replaced ==> s.replicas[gen.replica].current == g)
    && (gen.replaced ==> gen.installed && Blamed(s, g))
  }

  ghost predicate StatementOk(c: Config, s: State, k: nat)
    requires k < |s.statements|
  {
    var statement := s.statements[k];
    && statement.task < |s.tasks|
    && Owns(c, s, statement.task, k)
    && !s.tasks[statement.task].pc.Arrived? && !s.tasks[statement.task].pc.Refused?
    && !s.tasks[statement.task].pc.Acquire?
    && (statement.verdict.Applied? ==> statement.verdict.at <= s.clock)
    && match statement.delivery
       case Waiting => s.tasks[statement.task].pc.Awaiting? && s.tasks[statement.task].pc.statement == k
       case Delivered =>
         || (s.tasks[statement.task].pc.Answered? && s.tasks[statement.task].pc.statement == k)
         || (s.tasks[statement.task].pc.Executed? && s.tasks[statement.task].pc.statement == k)
       case Lost => true
  }

  ghost predicate Structure(c: Config, s: State) {
    && 0.0 <= s.clock < HORIZON
    && (forall i :: 0 <= i < |s.tasks| ==> TaskOk(c, s, i))
    && (forall r :: 0 <= r < |s.replicas| ==> ReplicaOk(s, r))
    && (forall g :: 0 <= g < |s.generations| ==> GenerationOk(s, g))
    && (forall k :: 0 <= k < |s.statements| ==> StatementOk(c, s, k))
  }

  /** The task an event moves, if any. */
  function Actor(e: Event): Option<nat> {
    match e
    case Tick(_) => None
    case Arrive(_, _) => None
    case Execute(_) => None
    case Close(_) => None
    case _ => Some(e.task)
  }

  /** The steps up to an open client. */
  predicate Reconnects(e: Event) {
    e.ReadClient? || e.Lock? || e.Check? || e.Connect? || e.Install?
  }

  ghost predicate TasksGrow(s: State, t: State) {
    && |s.tasks| <= |t.tasks|
    && (forall i :: 0 <= i < |s.tasks| ==>
          t.tasks[i].replica == s.tasks[i].replica && t.tasks[i].job == s.tasks[i].job)
  }

  ghost predicate GenerationsGrow(s: State, t: State) {
    && |s.generations| <= |t.generations|
    && (forall g :: 0 <= g < |s.generations| ==>
          && t.generations[g].replica == s.generations[g].replica
          && (s.generations[g].closed ==> t.generations[g].closed)
          && (s.generations[g].suspect ==> t.generations[g].suspect)
          && (s.generations[g].installed ==> t.generations[g].installed)
          && (s.generations[g].replaced ==> t.generations[g].replaced))
  }

  ghost predicate StatementsGrow(s: State, t: State) {
    && |s.statements| <= |t.statements|
    && (forall k :: 0 <= k < |s.statements| ==>
          && t.statements[k].task == s.statements[k].task
          && t.statements[k].client == s.statements[k].client
          && t.statements[k].effect == s.statements[k].effect
          && (s.statements[k].verdict.Applied? ==> t.statements[k].verdict == s.statements[k].verdict))
  }

  /** Nothing recorded is forgotten: identities stay, marks only accumulate, verdicts are final. */
  ghost predicate Grows(s: State, t: State) {
    |s.replicas| == |t.replicas| && TasksGrow(s, t) && GenerationsGrow(s, t) && StatementsGrow(s, t)
  }

  lemma TasksOnlyGrow(c: Config, s: State, e: Event)
    requires Enabled(c, s, e)
    ensures |s.replicas| == |Next(c, s, e).replicas| && TasksGrow(s, Next(c, s, e))
  {
  }

  lemma GenerationsOnlyGrow(c: Config, s: State, e: Event)
    requires Enabled(c, s, e)
    ensures GenerationsGrow(s, Next(c, s, e))
  {
  }

  /** The steps that concern statements. */
  predicate TouchesStatements(e: Event) {
    e.Send? || e.Execute? || e.Reply? || e.Lose? || e.Drop?
  }

  lemma StatementsUntouched(c: Config, s: State, e: Event)
    requires Enabled(c, s, e) && !TouchesStatements(e)
    ensures Next(c, s, e).statements == s.statements
  {
  }

  lemma StatementsOnlyGrow(c: Config, s: State, e: Event)
    requires Enabled(c, s, e)
    ensures StatementsGrow(s, Next(c, s, e))
  {
    if !TouchesStatements(e) {
      StatementsUntouched(c, s, e);
    }
  }

  lemma ReconnectingSendsNothing(c: Config, s: State, e: Event)
    requires Enabled(c, s, e) && (Reconnects(e) || Actor(e).None?)
    ensures |Next(c, s, e).statements| == |s.statements|
  {
  }

  lemma OnlySendAdds(c: Config, s: State, e: Event)
    requires Enabled(c, s, e) && !e.Send?
    ensures |Next(c, s, e).statements| == |s.statements|
  {
    if Reconnects(e) || Actor(e).None? {
      ReconnectingSendsNothing(c, s, e);
    }
  }

  lemma NothingForgotten(c: Config, s: State, e: Event)
    requires Enabled(c, s, e)
    ensures Grows(s, Next(c, s, e))
  {
    TasksOnlyGrow(c, s, e);
    GenerationsOnlyGrow(c, s, e);
    StatementsOnlyGrow(c, s, e);
  }

  /** From `s` to `t` nobody touched task `i`, nor a mutex, a connection or a statement that is its own. */
  ghost predicate Respects(s: State, t: State, i: nat)
    requires i < |s.tasks| && Grows(s, t)
  {
    && t.tasks[i] == s.tasks[i]
    && (Critical(s.tasks[i].pc) && s.tasks[i].replica < |s.replicas| ==>
          t.replicas[s.tasks[i].replica] == s.replicas[s.tasks[i].replica])
    && (s.tasks[i].pc.Installing? && s.tasks[i].pc.spare < |s.generations| ==>
          && t.generations[s.tasks[i].pc.spare].installed == s.generations[s.tasks[i].pc.spare].installed
          && t.generations[s.tasks[i].pc.spare].replaced == s.generations[s.tasks[i].pc.spare].replaced)
    && (forall k :: 0 <= k < |s.statements| && s.statements[k].task == i ==>
          t.statements[k].delivery == s.statements[k].delivery)
  }

  lemma OthersStay(c: Config, s: State, e: Event, i: nat)
    requires Enabled(c, s, e) && i < |s.tasks| && Actor(e) != Some(i)
    ensures i < |Next(c, s, e).tasks| && Next(c, s, e).tasks[i] == s.tasks[i]
  {
  }

  lemma MutexRespected(c: Config, s: State, e: Event, i: nat)
    requires Structure(c, s) && Enabled(c, s, e) && i < |s.tasks| && Actor(e) != Some(i)
    requires Critical(s.tasks[i].pc)
    ensures var r := s.tasks[i].replica;
            r < |s.replicas| && r < |Next(c, s, e).replicas| && Next(c, s, e).replicas[r] == s.replicas[r]
  {
    assert TaskOk(c, s, i);
    if Actor(e).Some? {
      assert TaskOk(c, s, Actor(e).value);
    }
  }

  /** A connection made and not yet shared is touched by its maker alone. */
  lemma SpareRespected(c: Config, s: State, e: Event, i: nat)
    requires Structure(c, s) && Enabled(c, s, e) && i < |s.tasks| && Actor(e) != Some(i)
    requires s.tasks[i].pc.Installing?
    ensures var spare, after := s.tasks[i].pc.spare, Next(c, s, e).generations;
            && spare < |s.generations| && spare < |after|
            && after[spare].installed == s.generations[spare].installed
            && after[spare].replaced == s.generations[spare].replaced
  {
    assert TaskOk(c, s, i);
    if Actor(e).Some? {
      assert TaskOk(c, s, Actor(e).value);
      assert ReplicaOk(s, s.tasks[Actor(e).value].replica);
    }
  }

  lemma DeliveryRespected(c: Config, s: State, e: Event, k: nat)
    requires Structure(c, s) && Enabled(c, s, e) && k < |s.statements| && Actor(e) != Some(s.statements[k].task)
    ensures k < |Next(c, s, e).statements| && Next(c, s, e).statements[k].delivery == s.statements[k].delivery
  {
    if Actor(e).Some? {
      assert TaskOk(c, s, Actor(e).value);
    }
  }

  /** Statements, held mutexes and unshared connections belong to one task and are moved by it alone. */
  lemma PropertyRespected(c: Config, s: State, e: Event, i: nat)
    requires Structure(c, s) && Enabled(c, s, e) && i < |s.tasks| && Actor(e) != Some(i)
    ensures Grows(s, Next(c, s, e)) && Respects(s, Next(c, s, e), i)
  {
    var after := Next(c, s, e);
    NothingForgotten(c, s, e);
    OthersStay(c, s, e, i);
    if Critical(s.tasks[i].pc) {
      MutexRespected(c, s, e, i);
    }
    if s.tasks[i].pc.Installing? {
      SpareRespected(c, s, e, i);
    }
    forall k | 0 <= k < |s.statements| && s.statements[k].task == i
      ensures after.statements[k].delivery == s.statements[k].delivery
    {
      DeliveryRespected(c, s, e, k);
    }
  }

  /** A task that does not move keeps its place, whatever the others do. */
  lemma BystanderKept(c: Config, s: State, t: State, i: nat)
    requires i < |s.tasks| && TaskOk(c, s, i) && Grows(s, t) && Respects(s, t, i)
    ensures TaskOk(c, t, i)
  {
  }

  lemma ReconnectingKept(c: Config, s: State, e: Event, i: nat)
    requires Structure(c, s) && Enabled(c, s, e) && Actor(e) == Some(i) && Reconnects(e)
    ensures i < |Next(c, s, e).tasks| && TaskOk(c, Next(c, s, e), i)
  {
    assert TaskOk(c, s, i);
    assert ReplicaOk(s, s.tasks[i].replica);
  }

  /** The steps of a statement: sent, then answered or lost. */
  predicate Queries(e: Event) {
    e.Send? || e.Reply? || e.Lose?
  }

  lemma QueryingKept(c: Config, s: State, e: Event, i: nat)
    requires Structure(c, s) && Enabled(c, s, e) && Actor(e) == Some(i) && Queries(e)
    ensures i < |Next(c, s, e).tasks| && TaskOk(c, Next(c, s, e), i)
  {
    assert TaskOk(c, s, i);
    assert ReplicaOk(s, s.tasks[i].replica);
  }

  /** On arrival, at the end, and when dropped. */
  lemma EndsKept(c: Config, s: State, e: Event, i: nat)
    requires Structure(c, s) && Enabled(c, s, e) && Actor(e) == Some(i) && !Reconnects(e) && !Queries(e)
    ensures i < |Next(c, s, e).tasks| && TaskOk(c, Next(c, s, e), i)
  {
    assert TaskOk(c, s, i);
    assert ReplicaOk(s, s.tasks[i].replica);
  }

  /** A task that moves arrives at a place where it owns what that place needs. */
  lemma ActorKept(c: Config, s: State, e: Event, i: nat)
    requires Structure(c, s) && Enabled(c, s, e) && Actor(e) == Some(i)
    ensures i < |Next(c, s, e).tasks| && TaskOk(c, Next(c, s, e), i)
  {
    if Reconnects(e) {
      ReconnectingKept(c, s, e, i);
    } else if Queries(e) {
      QueryingKept(c, s, e, i);
    } else {
      EndsKept(c, s, e, i);
    }
  }

  lemma TaskKept(c: Config, s: State, e: Event, i: nat)
    requires Structure(c, s) && Enabled(c, s, e) && i < |Next(c, s, e).tasks|
    ensures TaskOk(c, Next(c, s, e), i)
  {
    NothingForgotten(c, s, e);
    if Actor(e) == Some(i) {
      ActorKept(c, s, e, i);
    } else if i < |s.tasks| {
      PropertyRespected(c, s, e, i);
      BystanderKept(c, s, Next(c, s, e), i);
    }
  }

  /** The event is a step of a task on replica `r`. */
  predicate ActsOn(s: State, e: Event, r: nat) {
    Actor(e).Some? && Actor(e).value < |s.tasks| && s.tasks[Actor(e).value].replica == r
  }

  lemma OtherReplicaKept(c: Config, s: State, e: Event, r: nat)
    requires Structure(c, s) && Enabled(c, s, e) && r < |s.replicas| && !ActsOn(s, e, r)
    ensures r < |Next(c, s, e).replicas| && Next(c, s, e).replicas[r] == s.replicas[r]
    ensures ReplicaOk(Next(c, s, e), r)
  {
    NothingForgotten(c, s, e);
    assert ReplicaOk(s, r);
    if Actor(e).Some? {
      var a := Actor(e).value;
      assert TaskOk(c, s, a);
      assert ReplicaOk(s, s.tasks[a].replica);
    }
    if s.replicas[r].holder.Some? {
      PropertyRespected(c, s, e, s.replicas[r].holder.value);
    }
  }

  lemma ActedReplicaKept(c: Config, s: State, e: Event, r: nat)
    requires Structure(c, s) && Enabled(c, s, e) && r < |s.replicas| && ActsOn(s, e, r)
    ensures r < |Next(c, s, e).replicas| && ReplicaOk(Next(c, s, e), r)
  {
    var a := Actor(e).value;
    NothingForgotten(c, s, e);
    assert ReplicaOk(s, r);
    assert TaskOk(c, s, a);
    if s.replicas[r].holder.Some? && s.replicas[r].holder.value != a {
      PropertyRespected(c, s, e, s.replicas[r].holder.value);
    }
  }

  lemma ReplicaKept(c: Config, s: State, e: Event, r: nat)
    requires Structure(c, s) && Enabled(c, s, e) && r < |Next(c, s, e).replicas|
    ensures ReplicaOk(Next(c, s, e), r)
  {
    NothingForgotten(c, s, e);
    if ActsOn(s, e, r) {
      ActedReplicaKept(c, s, e, r);
    } else {
      OtherReplicaKept(c, s, e, r);
    }
  }

  lemma GenerationKept(c: Config, s: State, e: Event, g: nat)
    requires Structure(c, s) && Enabled(c, s, e) && g < |Next(c, s, e).generations|
    ensures GenerationOk(Next(c, s, e), g)
  {
    if g < |s.generations| {
      assert GenerationOk(s, g);
    }
    if Actor(e).Some? {
      assert TaskOk(c, s, Actor(e).value);
      assert ReplicaOk(s, s.tasks[Actor(e).value].replica);
    }
  }

  lemma VerdictDated(c: Config, s: State, e: Event, k: nat)
    requires Structure(c, s) && Enabled(c, s, e) && k < |s.statements|
    ensures var after := Next(c, s, e);
            && k < |after.statements| && s.clock <= after.clock
            && (after.statements[k].verdict.Applied? ==> after.statements[k].verdict.at <= after.clock)
  {
    assert StatementOk(c, s, k);
  }

  lemma OtherStatementKept(c: Config, s: State, e: Event, k: nat)
    requires Structure(c, s) && Enabled(c, s, e) && k < |s.statements|
    requires Actor(e) != Some(s.statements[k].task)
    ensures k < |Next(c, s, e).statements| && StatementOk(c, Next(c, s, e), k)
  {
    assert StatementOk(c, s, k);
    PropertyRespected(c, s, e, s.statements[k].task);
    VerdictDated(c, s, e, k);
  }

  lemma ActedStatementKept(c: Config, s: State, e: Event, k: nat)
    requires Structure(c, s) && Enabled(c, s, e) && k < |s.statements|
    requires Actor(e) == Some(s.statements[k].task)
    ensures k < |Next(c, s, e).statements| && StatementOk(c, Next(c, s, e), k)
  {
    NothingForgotten(c, s, e);
    assert StatementOk(c, s, k);
    assert TaskOk(c, s, s.statements[k].task);
  }

  lemma StatementKept(c: Config, s: State, e: Event, k: nat)
    requires Structure(c, s) && Enabled(c, s, e) && k < |Next(c, s, e).statements|
    ensures StatementOk(c, Next(c, s, e), k)
  {
    if k < |s.statements| {
      if Actor(e) == Some(s.statements[k].task) {
        ActedStatementKept(c, s, e, k);
      } else {
        OtherStatementKept(c, s, e, k);
      }
    } else {
      assert TaskOk(c, s, e.task);
    }
  }

  lemma StructureKept(c: Config, s: State, e: Event)
    requires Structure(c, s) && Enabled(c, s, e)
    ensures Structure(c, Next(c, s, e))
  {
    var after := Next(c, s, e);
    forall i | 0 <= i < |after.tasks| ensures TaskOk(c, after, i) {
      TaskKept(c, s, e, i);
    }
    forall r | 0 <= r < |after.replicas| ensures ReplicaOk(after, r) {
      ReplicaKept(c, s, e, r);
    }
    forall g | 0 <= g < |after.generations| ensures GenerationOk(after, g) {
      GenerationKept(c, s, e, g);
    }
    forall k | 0 <= k < |after.statements| ensures StatementOk(c, after, k) {
      StatementKept(c, s, e, k);
    }
  }

  lemma {:induction false} StructureHolds(c: Config, run: Run)
    requires Legal(c, run)
    ensures Structure(c, Last(c, run))
  {
    match run
    case Begin(s) =>
    case Then(before, e) =>
      StructureHolds(c, before);
      StructureKept(c, Last(c, before), e);
  }
}
