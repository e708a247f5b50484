/**
 Progress of the replay protocol: no task waits for ever.  From every reachable state every unfinished
 task can be brought to an end without dropping a task, losing a reply or closing a connection; the
 reconnect mutex is given back on every path, whether connecting succeeds or fails.
 */
module ReplayProgress {
  import opened ReplayProtocol
  import opened ReplayStructure

  /** A step inside the mutex, or of a task that needs no mutex; `ok` says whether connecting succeeds. */
  function OwnStep(s: State, i: nat, ok: bool): Event
    requires i < |s.tasks|
  {
    match s.tasks[i].pc
    case Arrived => Sample(i, s.clock)
    case Acquire => ReadClient(i)
    case LockWait(_, _) => Lock(i)
    case Locked(_, _) => Check(i)
    case Connecting(_, _, _) => Connect(i, ok)
    case Installing(_, _, _, _) => Install(i)
    case Ready(_, _) => Send(i)
    case Awaiting(_, _, k) =>
      if k < |s.statements| && s.statements[k].verdict.Unapplied? then Execute(k) else Reply(i)
    case _ => Tick(s.clock)
  }

  predicate Waits(s: State, i: nat) {
    && i < |s.tasks| && s.tasks[i].pc.LockWait?
    && s.tasks[i].replica < |s.replicas| && s.replicas[s.tasks[i].replica].holder.Some?
  }

  /** Whoever has to move for task `i` to get on: the holder of the mutex it waits for, or itself. */
  function Mover(s: State, i: nat): nat {
    if Waits(s, i) then s.replicas[s.tasks[i].replica].holder.value else i
  }

  /** Steps until a lock holder gives the mutex back. */
  function HoldLeft(pc: Pc): nat {
    match pc
    case Locked(_, _) => 3
    case Connecting(_, _, _) => 2
    case Installing(_, _, _, _) => 1
    case _ => 0
  }

  function WaitLeft(s: State, i: nat): nat {
    if Waits(s, i) && Mover(s, i) < |s.tasks| then HoldLeft(s.tasks[Mover(s, i)].pc) else 0
  }

  /** At most this many steps are left; the first attempt may be followed by a second. */
  function StepsLeft(s: State, i: nat): nat
    requires i < |s.tasks|
  {
    match s.tasks[i].pc
    case Arrived => 20
    case Acquire => 19
    case LockWait(_, retry) => (if retry then 7 else 15) + WaitLeft(s, i)
    case Locked(_, retry) => if retry then 6 else 14
    case Connecting(_, _, retry) => if retry then 5 else 13
    case Installing(_, _, _, retry) => if retry then 4 else 12
    case Ready(_, retry) => if retry then 3 else 11
    case Awaiting(_, _, k) => if k < |s.statements| && s.statements[k].verdict.Unapplied? then 2 else 1
    case _ => 0
  }

  predicate Unfinished(s: State, i: nat) {
    i < |s.tasks| && !Terminal(s.tasks[i].pc)
  }

  /** The mover exists and, if it is not the task itself, holds the mutex. */
  lemma MoverReady(c: Config, s: State, i: nat)
    requires Structure(c, s) && Unfinished(s, i)
    ensures var m := Mover(s, i);
            && m < |s.tasks| && Unfinished(s, m) && !Waits(s, m)
            && (m != i ==> Critical(s.tasks[m].pc) && s.tasks[m].replica == s.tasks[i].replica
                           && Waits(s, i))
  {
    assert TaskOk(c, s, i);
    assert ReplicaOk(s, s.tasks[i].replica);
  }

  /** A task that does not wait for the mutex can always move. */
  lemma OwnStepEnabled(c: Config, s: State, i: nat, ok: bool)
    requires Structure(c, s) && Unfinished(s, i) && !Waits(s, i)
    ensures Enabled(c, s, OwnStep(s, i, ok))
  {
    assert TaskOk(c, s, i);
    assert ReplicaOk(s, s.tasks[i].replica);
  }

  lemma EnteringAdvances(c: Config, s: State, i: nat, ok: bool)
    requires Structure(c, s) && i < |s.tasks| && !Waits(s, i)
    requires s.tasks[i].pc.Arrived? || s.tasks[i].pc.Acquire? || s.tasks[i].pc.LockWait?
    requires Enabled(c, s, OwnStep(s, i, ok))
    ensures var after := Next(c, s, OwnStep(s, i, ok));
            i < |after.tasks| && StepsLeft(after, i) < StepsLeft(s, i)
  {
    assert TaskOk(c, s, i);
    assert WaitLeft(Next(c, s, OwnStep(s, i, ok)), i) <= 3;
  }

  lemma ReconnectingAdvances(c: Config, s: State, i: nat, ok: bool)
    requires i < |s.tasks| && Critical(s.tasks[i].pc) && Enabled(c, s, OwnStep(s, i, ok))
    ensures var after := Next(c, s, OwnStep(s, i, ok));
            i < |after.tasks| && StepsLeft(after, i) < StepsLeft(s, i)
  {
  }

  lemma QueryingAdvances(c: Config, s: State, i: nat, ok: bool)
    requires i < |s.tasks| && (s.tasks[i].pc.Ready? || s.tasks[i].pc.Awaiting?)
    requires Enabled(c, s, OwnStep(s, i, ok))
    ensures var after := Next(c, s, OwnStep(s, i, ok));
            i < |after.tasks| && StepsLeft(after, i) < StepsLeft(s, i)
  {
    assert WaitLeft(Next(c, s, OwnStep(s, i, ok)), i) <= 3;
  }

  /** A task's own step brings its end nearer. */
  lemma OwnStepAdvances(c: Config, s: State, i: nat, ok: bool)
    requires Structure(c, s) && Unfinished(s, i) && !Waits(s, i)
    requires Enabled(c, s, OwnStep(s, i, ok))
    ensures var after := Next(c, s, OwnStep(s, i, ok));
            i < |after.tasks| && StepsLeft(after, i) < StepsLeft(s, i)
  {
    if Critical(s.tasks[i].pc) {
      ReconnectingAdvances(c, s, i, ok);
    } else if s.tasks[i].pc.Ready? || s.tasks[i].pc.Awaiting? {
      QueryingAdvances(c, s, i, ok);
    } else {
      EnteringAdvances(c, s, i, ok);
    }
  }

  /** A holder's step brings the release of the mutex nearer. */
  lemma HolderAdvances(c: Config, s: State, i: nat, ok: bool)
    requires Structure(c, s) && Unfinished(s, i) && Waits(s, i)
    requires var m := Mover(s, i); m < |s.tasks| && m != i && Critical(s.tasks[m].pc)
                                   && s.tasks[m].replica == s.tasks[i].replica
    requires Enabled(c, s, OwnStep(s, Mover(s, i), ok))
    ensures var after := Next(c, s, OwnStep(s, Mover(s, i), ok));
            i < |after.tasks| && StepsLeft(after, i) < StepsLeft(s, i)
  {
  }

  /** `later` continues `earlier` undisturbed: nothing is dropped, lost or closed. */
  ghost predicate Undisturbed(earlier: Run, later: Run) {
    later == earlier
    || (later.Then? && !later.event.Drop? && !later.event.Lose? && !later.event.Close?
        && Undisturbed(earlier, later.before))
  }

  lemma {:induction false} UndisturbedTransitive(a: Run, b: Run, c: Run)
    requires Undisturbed(a, b) && Undisturbed(b, c)
    ensures Undisturbed(a, c)
  {
    if b != c {
      UndisturbedTransitive(a, b, c.before);
    }
  }

  function Length(run: Run): nat {
    if run.Begin? then 0 else Length(run.before) + 1
  }

  lemma Advance(c: Config, run: Run, i: nat, ok: bool) returns (longer: Run)
    requires Legal(c, run) && Unfinished(Last(c, run), i)
    ensures Legal(c, longer) && Undisturbed(run, longer) && Length(longer) == Length(run) + 1
    ensures i < |Last(c, longer).tasks| && StepsLeft(Last(c, longer), i) < StepsLeft(Last(c, run), i)
  {
    var s := Last(c, run);
    var m := Mover(s, i);
    StructureHolds(c, run);
    MoverReady(c, s, i);
    OwnStepEnabled(c, s, m, ok);
    if m == i {
      OwnStepAdvances(c, s, i, ok);
    } else {
      HolderAdvances(c, s, i, ok);
    }
    longer := Then(run, OwnStep(s, m, ok));
  }

  /**
   From every reachable state every task can be brought to an end by at most twenty steps of itself, the
   server and whoever holds the mutex, however the connection attempts on the way turn out (`outcome`).
   */
  lemma {:induction false} NobodyStuck(c: Config, run: Run, i: nat, outcome: nat -> bool) returns (longer: Run)
    requires Legal(c, run) && i < |Last(c, run).tasks|
    ensures Legal(c, longer) && Undisturbed(run, longer)
    ensures Length(longer) <= Length(run) + StepsLeft(Last(c, run), i) <= Length(run) + 20
    ensures i < |Last(c, longer).tasks| && Terminal(Last(c, longer).tasks[i].pc)
    decreases StepsLeft(Last(c, run), i)
  {
    if Terminal(Last(c, run).tasks[i].pc) {
      longer := run;
    } else {
      var next := Advance(c, run, i, outcome(StepsLeft(Last(c, run), i)));
      longer := NobodyStuck(c, next, i, outcome);
      UndisturbedTransitive(run, next, longer);
    }
  }
}
