/**
 The kernel's code over its shared state, in the source's own shape: each atomic stretch between two
 `await`s is one method that updates the fields, and `Client`, `Reconnect`, `Claim`,
 `DeleteExpired`, `VerifyServiceRequest` and `RunNonceCleanup` string them together.  A ghost history
 records every stretch as an event of the replay protocol, and `Valid` says that the fields are the
 state that history leads to, so whatever is proved of all legal runs holds of this code under every
 interleaving.
 */
module SecurityKernel {
  import opened Text
  import opened Gate
  import opened ReplayProtocol
  import opened ReplayStructure
  import opened ReplaySafety
  import opened ReplayRefusal
  import opened ReplayProgress
  import ReplayRetention

  /** What happens to a statement on the wire. */
  datatype Fate = Arrives | Vanishes(shutdown: bool)

  /** The network as one task meets it: the fates of its two attempts and whether it can connect. */
  datatype Network = Network(first: Fate, second: Fate, connects: bool, reconnects: bool)

  datatype Completion<T> = Ok(value: T) | Err

  datatype Status = NextRun | Unauthorized | BadRequest | ServiceUnavailable

  /** `later` continues `earlier`. */
  ghost predicate Extends(earlier: Run, later: Run) {
    later == earlier || (later.Then? && Extends(earlier, later.before))
  }

  lemma {:induction false} ExtendsTransitive(a: Run, b: Run, c: Run)
    requires Extends(a, b) && Extends(b, c)
    ensures Extends(a, c)
  {
    if b != c {
      ExtendsTransitive(a, b, c.before);
    }
  }

  /** One more step on a legal history. */
  lemma Recorded(c: Config, run: Run, e: Event, after: State)
    requires Legal(c, run) && Enabled(c, Last(c, run), e) && Next(c, Last(c, run), e) == after
    ensures Legal(c, Then(run, e)) && Last(c, Then(run, e)) == after
    ensures Extends(run, Then(run, e))
  {
  }

  // Why a call fails

  /** Some connection closed between two points of a history. */
  ghost predicate BrokeBetween(c: Config, earlier: Run, later: Run) {
    exists g :: Closed(Last(c, later), g) && !Closed(Last(c, earlier), g)
  }

  /** The shared client of task `me` was closed, and no new connection could be made. */
  ghost predicate NoConnection(c: Config, network: Network, earlier: Run, me: nat) {
    !network.connects && Usable(Last(c, earlier), me) && Closed(Last(c, earlier), CurrentOf(Last(c, earlier), me))
  }

  /** The first attempt ended at `mid` in a way that allows a second. */
  ghost predicate FirstRetryable(c: Config, network: Network, earlier: Run, mid: Run) {
    Extends(earlier, mid) && (network.first == Vanishes(true) || BrokeBetween(c, earlier, mid))
  }

  /** The second attempt, from `mid` on, had no connection, lost its reply, or its connection closed. */
  ghost predicate SecondFails(c: Config, network: Network, mid: Run, later: Run) {
    && Extends(mid, later)
    && (!network.reconnects || network.second.Vanishes? || BrokeBetween(c, mid, later))
  }

  /** The causes of an error, attempt by attempt; a second attempt counts only if there was one. */
  ghost predicate Excused(c: Config, network: Network, earlier: Run, later: Run, me: nat) {
    || NoConnection(c, network, earlier, me)
    || network.first == Vanishes(false)
    || exists mid :: FirstRetryable(c, network, earlier, mid) && SecondFails(c, network, mid, later)
  }

  class Kernel {
    const config: Config
    var clock: real
    var table: map<Uuid, Row>
    var tasks: seq<Task>
    var statements: seq<Statement>
    var generations: seq<Generation>
    var replicas: seq<Replica>
    var lastSweep: real
    var inserted: nat
    var deleted: nat
    ghost var history: Run

    function Snapshot(): State
      reads this
    {
      State(clock, table, tasks, statements, generations, replicas, lastSweep, inserted, deleted)
    }

    ghost predicate Valid()
      reads this
    {
      Legal(config, history) && Last(config, history) == Snapshot()
    }

    /** Task `me` exists. */
    ghost predicate Present(me: nat)
      reads this
    {
      Valid() && me < |tasks|
    }

    constructor (config: Config, clock: real, replicaCount: nat)
      requires 0.0 <= clock < HORIZON
      ensures Valid() && this.config == config && history == Begin(Snapshot())
      ensures tasks == [] && statements == [] && table == map[]
      ensures |replicas| == replicaCount && |generations| == replicaCount
      ensures forall r :: 0 <= r < replicaCount ==>
                replicas[r] == Replica(r, None) && generations[r].replica == r && !generations[r].closed
    {
      this.config := config;
      this.clock, lastSweep := clock, clock;
      table, tasks, statements := map[], [], [];
      inserted, deleted := 0, 0;
      generations := seq(replicaCount, (r: nat) => Generation(r, false, false, true, false));
      replicas := seq(replicaCount, (r: nat) => Replica(r, None));
      new;
      history := Begin(Snapshot());
    }

    lemma Placed(me: nat)
      requires Present(me)
      ensures Structure(config, Snapshot()) && TaskOk(config, Snapshot(), me)
      ensures tasks[me].replica < |replicas|
      ensures !tasks[me].pc.Refused? && !tasks[me].pc.Failed? ==> Usable(Snapshot(), me)
    {
      StructureHolds(config, history);
      var s := Snapshot();
      assert TaskOk(config, s, me);
      assert ReplicaOk(s, tasks[me].replica);
    }

    /** A task that waits for a reply waits for a statement of its own. */
    lemma AwaitsItsOwn(me: nat)
      requires Present(me) && tasks[me].pc.Awaiting?
      ensures tasks[me].pc.statement < |statements|
    {
      Placed(me);
    }

    /** One step of the machine, whoever makes it. */
    method Step(e: Event)
      requires Valid() && Enabled(config, Snapshot(), e)
      modifies this
      ensures Valid() && history == Then(old(history), e)
      ensures Snapshot() == Next(config, old(Snapshot()), e)
    {
      var after := Next(config, Snapshot(), e);
      clock, table, tasks, statements := after.clock, after.table, after.tasks, after.statements;
      generations, replicas, lastSweep := after.generations, after.replicas, after.lastSweep;
      inserted, deleted := after.inserted, after.deleted;
      history := Then(history, e);
    }

    /** While task `me` waits, other tasks, other replicas, the server and the clock make any steps in any order. */
    method Interfere(me: nat)
      requires Present(me)
      modifies this
      ensures Present(me) && tasks[me] == old(tasks[me])
      ensures Extends(old(history), history)
      ensures NothingLost(old(Snapshot()), me) ==> NothingLost(Snapshot(), me)
    {
      var events: seq<Event> := *;
      for taken := 0 to |events|
        invariant Present(me) && tasks[me] == old(tasks[me]) && Extends(old(history), history)
        invariant NothingLost(old(Snapshot()), me) ==> NothingLost(Snapshot(), me)
      {
        var e := events[taken];
        if Enabled(config, Snapshot(), e) && Actor(e) != Some(me) {
          OthersStay(config, Snapshot(), e, me);
          StructureHolds(config, history);
          if NothingLost(Snapshot(), me) {
            OthersLoseNothing(config, Snapshot(), e, me);
          }
          Step(e);
        }
      }
    }

    // Atomic stretches

    method Spawn(replica: nat, job: Job) returns (me: nat)
      requires Valid() && replica < |replicas|
      modifies this
      ensures Present(me) && history == Then(old(history), Arrive(replica, job)) && me == |old(tasks)|
      ensures tasks[me] == Task(replica, job, 0, 0.0, if job.Claim? then Arrived else Acquire)
    {
      me := |tasks|;
      tasks := tasks + [Task(replica, job, 0, 0.0, if job.Claim? then Arrived else Acquire)];
      history := Then(history, Arrive(replica, job));
    }

    /** The gate's decision on the clock reading of this kernel. */
    function AdmissionAt(raw: RawRequest, reading: real): Admission {
      Admit(config.mac, raw, AsI64(NowUnixSeconds(reading)), config.skew)
    }

    /** Signature, clock reading and window: main.rs up to the claim. */
    method CheckSample(me: nat, reading: real) returns (admission: Admission)
      requires Present(me) && tasks[me].pc.Arrived? && 0.0 <= reading < HORIZON
      modifies this
      ensures Present(me) && history == Then(old(history), Sample(me, reading))
      ensures tasks[me].job == old(tasks[me].job) && tasks[me].job.Claim?
      ensures admission == AdmissionAt(tasks[me].job.raw, reading)
      ensures tasks[me].pc == if admission.Admitted? then Acquire else Refused
    {
      Placed(me);
      admission := CheckRequest(config.mac, tasks[me].job.raw, reading, config.skew);
      match admission {
        case Admitted(timestamp) =>
          tasks := tasks[me := tasks[me].(timestamp := timestamp, reading := reading, pc := Acquire)];
        case Rejected(_) =>
          tasks := tasks[me := tasks[me].(reading := reading, pc := Refused)];
      }
      history := Then(history, Sample(me, reading));
    }

    method SetPc(me: nat, pc: Pc)
      requires me < |tasks|
      modifies this`tasks
      ensures tasks == old(tasks)[me := old(tasks[me]).(pc := pc)]
    {
      tasks := tasks[me := tasks[me].(pc := pc)];
    }

    method SetMutex(r: nat, holder: Option<nat>)
      requires r < |replicas|
      modifies this`replicas
      ensures replicas == old(replicas)[r := old(replicas[r]).(holder := holder)]
    {
      replicas := replicas[r := replicas[r].(holder := holder)];
    }

    method IsClosed(g: nat) returns (closed: bool)
      ensures closed == Closed(Snapshot(), g)
    {
      closed := g < |generations| && generations[g].closed;
    }

    /** `self.inner.client.read()` and `is_closed`. */
    method ReadShared(me: nat)
      requires Present(me) && tasks[me].pc.Acquire?
      modifies this
      ensures Present(me) && history == Then(old(history), ReadClient(me))
      ensures tasks[me].pc.Ready? || tasks[me].pc.LockWait?
      ensures !tasks[me].pc.retry && statements == old(statements)
      ensures Usable(old(Snapshot()), me)
      ensures var current := CurrentOf(old(Snapshot()), me);
              tasks[me].pc ==
              if Closed(old(Snapshot()), current) then LockWait(current, false) else Ready(current, false)
    {
      Placed(me);
      var current := replicas[tasks[me].replica].current;
      var closed := IsClosed(current);
      if closed {
        SetPc(me, LockWait(current, false));
      } else {
        SetPc(me, Ready(current, false));
      }
      history := Then(history, ReadClient(me));
    }

    method TakeMutex(me: nat)
      requires Present(me) && tasks[me].pc.LockWait?
      requires tasks[me].replica < |replicas| && replicas[tasks[me].replica].holder.None?
      modifies this
      ensures Present(me) && history == Then(old(history), Lock(me))
      ensures tasks[me].pc == Locked(old(tasks[me].pc.failed), old(tasks[me].pc.retry))
      ensures statements == old(statements)
    {
      Placed(me);
      SetMutex(tasks[me].replica, Some(me));
      SetPc(me, Locked(tasks[me].pc.failed, tasks[me].pc.retry));
      history := Then(history, Lock(me));
    }

    /** The double check: another task may have replaced the failed client meanwhile. */
    method CheckCurrent(me: nat)
      requires Present(me) && tasks[me].pc.Locked?
      modifies this
      ensures Present(me) && history == Then(old(history), Check(me))
      ensures tasks[me].pc.Ready? || tasks[me].pc.Connecting?
      ensures tasks[me].pc.retry == old(tasks[me].pc.retry) && statements == old(statements)
      ensures var r := old(tasks[me].replica);
              && r < |old(replicas)|
              && var current := old(replicas[r].current);
                 && (tasks[me].pc.Ready? <==> current != old(tasks[me].pc.failed) && !Closed(old(Snapshot()), current))
                 && (tasks[me].pc.Ready? ==> tasks[me].pc.client == current)
                 && (tasks[me].pc.Connecting? ==>
                       tasks[me].pc.failed == old(tasks[me].pc.failed) && tasks[me].pc.checked == current)
    {
      Placed(me);
      var failed, retry := tasks[me].pc.failed, tasks[me].pc.retry;
      var current := replicas[tasks[me].replica].current;
      var closed := IsClosed(current);
      if current != failed && !closed {
        SetMutex(tasks[me].replica, None);
        SetPc(me, Ready(current, retry));
      } else {
        SetPc(me, Connecting(failed, current, retry));
      }
      history := Then(history, Check(me));
    }

    method ConnectClient(me: nat, ok: bool)
      requires Present(me) && tasks[me].pc.Connecting?
      modifies this
      ensures Present(me) && history == Then(old(history), Connect(me, ok))
      ensures if ok then tasks[me].pc.Installing? && tasks[me].pc.retry == old(tasks[me].pc.retry)
                         && tasks[me].pc.spare == |old(generations)|
              else tasks[me].pc.Failed?
      ensures statements == old(statements)
    {
      Placed(me);
      var pc := tasks[me].pc;
      if ok {
        var spare := |generations|;
        generations := generations + [Generation(tasks[me].replica, false, false, false, false)];
        SetPc(me, Installing(pc.failed, pc.checked, spare, pc.retry));
      } else {
        SetMutex(tasks[me].replica, None);
        SetPc(me, Failed);
      }
      history := Then(history, Connect(me, ok));
    }

    /** `*self.inner.client.write() = client` and the release of the mutex. */
    method InstallClient(me: nat)
      requires Present(me) && tasks[me].pc.Installing?
      modifies this
      ensures Present(me) && history == Then(old(history), Install(me))
      ensures tasks[me].pc == Ready(old(tasks[me].pc.spare), old(tasks[me].pc.retry))
      ensures statements == old(statements)
    {
      Placed(me);
      var r, spare := tasks[me].replica, tasks[me].pc.spare;
      var previous := replicas[r].current;
      generations := generations[previous := generations[previous].(replaced := true)];
      generations := generations[spare := generations[spare].(installed := true)];
      replicas := replicas[r := Replica(spare, None)];
      SetPc(me, Ready(spare, tasks[me].pc.retry));
      history := Then(history, Install(me));
    }

    /** Hands the statement to the client; a closed client refuses it at once. */
    method SendStatement(me: nat)
      requires Present(me) && tasks[me].pc.Ready?
      modifies this
      ensures Present(me) && history == Then(old(history), Send(me))
      ensures tasks[me].pc.Awaiting? || tasks[me].pc.LockWait? || tasks[me].pc.Failed?
      ensures tasks[me].pc.Awaiting? ==> tasks[me].pc.retry == old(tasks[me].pc.retry)
      ensures tasks[me].pc.LockWait? ==> tasks[me].pc.retry && !old(tasks[me].pc.retry)
      ensures old(tasks[me].pc.retry) ==> !tasks[me].pc.LockWait?
      ensures tasks[me].pc.Awaiting? ==> tasks[me].pc.client == old(tasks[me].pc.client)
      ensures tasks[me].pc.Failed? ==> old(tasks[me].pc.retry)
      ensures tasks[me].pc.Awaiting? <==> !Closed(old(Snapshot()), old(tasks[me].pc.client))
      ensures tasks[me].pc.LockWait? ==> tasks[me].pc.failed == old(tasks[me].pc.client)
      ensures tasks[me].pc.Awaiting? ==>
                |statements| == |old(statements)| + 1 && tasks[me].pc.statement == |old(statements)|
                && statements[|old(statements)|].client == old(tasks[me].pc.client)
      ensures NothingLost(old(Snapshot()), me) ==> NothingLost(Snapshot(), me)
    {
      Placed(me);
      var client, retry := tasks[me].pc.client, tasks[me].pc.retry;
      var closed := IsClosed(client);
      if closed {
        if retry {
          SetPc(me, Failed);
        } else {
          SetPc(me, LockWait(client, true));
        }
      } else {
        statements := statements + [Statement(me, client, EffectOf(config, tasks[me]), Unapplied, Waiting)];
        SetPc(me, Awaiting(client, retry, |statements| - 1));
      }
      assert Snapshot() == Sent(config, Last(config, history), me);
      Recorded(config, history, Send(me), Snapshot());
      history := Then(history, Send(me));
    }

    method SetVerdict(k: nat, rows: nat)
      requires k < |statements|
      modifies this`statements
      ensures statements == old(statements)[k := old(statements[k]).(verdict := Applied(rows, clock))]
    {
      statements := statements[k := statements[k].(verdict := Applied(rows, clock))];
    }

    /** `INSERT ... ON CONFLICT DO NOTHING`. */
    method InsertRow(k: nat)
      requires k < |statements| && statements[k].effect.Insert?
      modifies this`statements, this`table, this`inserted
      ensures Snapshot() == Perform(old(Snapshot()), k)
      ensures var nonce, expires := statements[k].effect.nonce, statements[k].effect.expires;
              if nonce in old(table) then
                table == old(table) && inserted == old(inserted) && statements[k].verdict == Applied(0, clock)
              else
                table == old(table)[nonce := Row(expires, k, clock)] && inserted == old(inserted) + 1
                && statements[k].verdict == Applied(1, clock)
    {
      var nonce := statements[k].effect.nonce;
      var isNew := nonce !in table;
      if isNew {
        table := table[nonce := Row(statements[k].effect.expires, k, clock)];
        inserted := inserted + 1;
      }
      SetVerdict(k, if isNew then 1 else 0);
    }

    /** `DELETE ... WHERE expires_at < NOW()`. */
    method DeleteRows(k: nat)
      requires k < |statements| && statements[k].effect.DeleteExpired?
      modifies this`statements, this`table, this`deleted, this`lastSweep
      ensures Snapshot() == Perform(old(Snapshot()), k)
      ensures forall n :: n in table <==> n in old(table) && clock <= old(table)[n].expires as real
      ensures forall n :: n in table ==> table[n] == old(table)[n]
      ensures statements[k].verdict == Applied(|old(table).Keys - table.Keys|, clock)
    {
      var kept := Survivors(table, clock);
      var removed := |table.Keys - kept.Keys|;
      SetVerdict(k, removed);
      deleted := deleted + removed;
      table, lastSweep := kept, clock;
    }

    /** The server runs a statement against the table. */
    method ExecuteStatement(k: nat)
      requires Valid() && k < |statements| && statements[k].verdict.Unapplied?
      modifies this
      ensures Valid() && history == Then(old(history), Execute(k))
      ensures tasks == old(tasks)
      ensures forall i :: NothingLost(old(Snapshot()), i) ==> NothingLost(Snapshot(), i)
    {
      match statements[k].effect {
        case Insert(_, _) => InsertRow(k);
        case DeleteExpired => DeleteRows(k);
        case Read => SetVerdict(k, 1);
      }
      Recorded(config, history, Execute(k), Snapshot());
      history := Then(history, Execute(k));
    }

    method ReceiveReply(me: nat)
      requires Present(me) && tasks[me].pc.Awaiting? && tasks[me].pc.statement < |statements|
      requires statements[tasks[me].pc.statement].verdict.Applied?
      modifies this
      ensures Present(me) && history == Then(old(history), Reply(me))
      ensures tasks[me].pc.Answered?
      ensures NothingLost(old(Snapshot()), me) ==> NothingLost(Snapshot(), me)
    {
      Placed(me);
      var k := tasks[me].pc.statement;
      statements := statements[k := statements[k].(delivery := Delivered)];
      SetPc(me, Answered(k, statements[k].verdict.rows));
      history := Then(history, Reply(me));
    }

    /** The query fails; `should_reconnect` decides whether this attempt may be repeated. */
    method ReceiveError(me: nat, shutdown: bool)
      requires Present(me) && tasks[me].pc.Awaiting? && tasks[me].pc.statement < |statements|
      modifies this
      ensures Present(me) && history == Then(old(history), Lose(me, shutdown))
      ensures tasks[me].pc.LockWait? || tasks[me].pc.Failed?
      ensures tasks[me].pc.LockWait? ==> tasks[me].pc.retry && !old(tasks[me].pc.retry)
      ensures tasks[me].pc.Failed? <==>
                old(tasks[me].pc.retry) || !(shutdown || Closed(Snapshot(), old(tasks[me].pc.client)))
      ensures tasks[me].pc.LockWait? ==> tasks[me].pc.failed == old(tasks[me].pc.client)
    {
      Placed(me);
      var client, retry, k := tasks[me].pc.client, tasks[me].pc.retry, tasks[me].pc.statement;
      var closed := IsClosed(client);
      statements := statements[k := statements[k].(delivery := Lost)];
      if shutdown {
        generations := generations[client := generations[client].(suspect := true)];
      }
      if !retry && (closed || shutdown) {
        SetPc(me, LockWait(client, true));
      } else {
        SetPc(me, Failed);
      }
      Recorded(config, history, Lose(me, shutdown), Snapshot());
      history := Then(history, Lose(me, shutdown));
    }

    method RunNext(me: nat)
      requires Present(me) && tasks[me].job.Claim? && tasks[me].pc.Answered? && tasks[me].pc.rows > 0
      modifies this
      ensures Present(me) && history == Then(old(history), Forward(me))
      ensures tasks[me] == old(tasks[me]).(pc := Executed(old(tasks[me].pc.statement)))
    {
      Placed(me);
      SetPc(me, Executed(tasks[me].pc.statement));
      history := Then(history, Forward(me));
    }

    // nonce_store.rs

    /** Whoever holds the mutex task `me` waits for takes its next step. */
    method LetHolderMove(me: nat)
      requires Present(me) && Waits(Snapshot(), me)
      modifies this
      ensures Present(me) && tasks[me] == old(tasks[me]) && Extends(old(history), history)
      ensures StepsLeft(Snapshot(), me) < old(StepsLeft(Snapshot(), me))
      ensures NothingLost(old(Snapshot()), me) ==> NothingLost(Snapshot(), me)
    {
      StructureHolds(config, history);
      MoverReady(config, Snapshot(), me);
      var m := Mover(Snapshot(), me);
      var connects: bool := *;
      var e := OwnStep(Snapshot(), m, connects);
      OwnStepEnabled(config, Snapshot(), m, connects);
      HolderAdvances(config, Snapshot(), me, connects);
      OthersStay(config, Snapshot(), e, me);
      if NothingLost(Snapshot(), me) {
        OthersLoseNothing(config, Snapshot(), e, me);
      }
      Step(e);
    }

    /**
     `lock().await`: others make any steps, and whoever still holds the mutex then goes on until it is
     given back.  A wait that ends at any other moment is one where the first part took longer.
     */
    method AwaitMutex(me: nat)
      requires Present(me) && tasks[me].pc.LockWait?
      modifies this
      ensures Present(me) && tasks[me] == old(tasks[me]) && Extends(old(history), history)
      ensures !Waits(Snapshot(), me)
      ensures NothingLost(old(Snapshot()), me) ==> NothingLost(Snapshot(), me)
    {
      Interfere(me);
      while Waits(Snapshot(), me)
        invariant Present(me) && tasks[me] == old(tasks[me]) && Extends(old(history), history)
        invariant NothingLost(old(Snapshot()), me) ==> NothingLost(Snapshot(), me)
        decreases StepsLeft(Snapshot(), me)
      {
        ghost var before := history;
        LetHolderMove(me);
        ExtendsTransitive(old(history), before, history);
      }
    }

    /** `Ready` when a client is in hand, `Failed` when connecting failed. */
    method Reconnect(me: nat, connects: bool)
      requires Present(me) && tasks[me].pc.LockWait?
      modifies this
      ensures Present(me) && Extends(old(history), history)
      ensures tasks[me].pc.Ready? || tasks[me].pc.Failed?
      ensures tasks[me].pc.Failed? ==> !connects
      ensures !tasks[me].pc.Failed? ==> tasks[me].pc.retry == old(tasks[me].pc.retry)
      ensures tasks[me].pc.Ready? ==> !Closed(old(Snapshot()), tasks[me].pc.client)
      ensures tasks[me].pc.Ready? ==> tasks[me].pc.client != old(tasks[me].pc.failed)
      ensures NothingLost(old(Snapshot()), me) ==> NothingLost(Snapshot(), me)
    {
      AwaitMutex(me);
      ghost var waited := history;
      ClosedStays(config, old(history), waited);
      Placed(me);
      TakeMutex(me);
      ExtendsTransitive(old(history), waited, history);
      ghost var locked := history;
      Interfere(me);
      ExtendsTransitive(old(history), locked, history);
      ClosedStays(config, old(history), history);
      CheckCurrent(me);
      if tasks[me].pc.Ready? {
        return;
      }
      ghost var checked := history;
      Replace(me, connects);
      ExtendsTransitive(old(history), checked, history);
      ClosedStays(config, old(history), checked);
    }

    /** Under the mutex: a new connection takes the place of the one checked. */
    method Replace(me: nat, connects: bool)
      requires Present(me) && tasks[me].pc.Connecting?
      modifies this
      ensures Present(me) && Extends(old(history), history)
      ensures if connects then tasks[me].pc.Ready? else tasks[me].pc.Failed?
      ensures connects ==> tasks[me].pc.retry == old(tasks[me].pc.retry)
      ensures connects ==> !Closed(old(Snapshot()), tasks[me].pc.client)
      ensures connects ==> tasks[me].pc.client != old(tasks[me].pc.failed)
      ensures NothingLost(old(Snapshot()), me) ==> NothingLost(Snapshot(), me)
    {
      Placed(me);
      Interfere(me);
      ghost var waited := history;
      GenerationsKept(config, old(history), waited);
      ConnectClient(me, connects);
      ExtendsTransitive(old(history), waited, history);
      if !connects {
        return;
      }
      ghost var connected := history;
      Interfere(me);
      ExtendsTransitive(old(history), connected, history);
      InstallClient(me);
    }

    /** `client()`. */
    method Client(me: nat, connects: bool)
      requires Present(me) && tasks[me].pc.Acquire?
      modifies this
      ensures Present(me) && Extends(old(history), history)
      ensures tasks[me].pc.Ready? || tasks[me].pc.Failed?
      ensures tasks[me].pc.Failed? ==> !connects && Usable(old(Snapshot()), me)
                                       && Closed(old(Snapshot()), CurrentOf(old(Snapshot()), me))
      ensures tasks[me].pc.Ready? ==> !tasks[me].pc.retry && !Closed(old(Snapshot()), tasks[me].pc.client)
      ensures NothingLost(old(Snapshot()), me) ==> NothingLost(Snapshot(), me)
    {
      Placed(me);
      ReadShared(me);
      if tasks[me].pc.LockWait? {
        ghost var read := history;
        ClosedStays(config, old(history), read);
        Reconnect(me, connects);
        ExtendsTransitive(old(history), read, history);
      }
    }

    /** One `query(...).await`: send, be executed at some moment unless already, and hear back or not. */
    method Query(me: nat, fate: Fate)
      requires Present(me) && tasks[me].pc.Ready?
      modifies this
      ensures Present(me) && Extends(old(history), history)
      ensures tasks[me].pc.Answered? || tasks[me].pc.LockWait? || tasks[me].pc.Failed?
      ensures tasks[me].pc.LockWait? ==> tasks[me].pc.retry && !old(tasks[me].pc.retry)
      ensures tasks[me].pc.LockWait? ==> fate == Vanishes(true) || Closed(Snapshot(), old(tasks[me].pc.client))
      ensures tasks[me].pc.Answered? <==> fate.Arrives? && !Closed(old(Snapshot()), old(tasks[me].pc.client))
      ensures tasks[me].pc.Failed? ==> old(tasks[me].pc.retry) || fate == Vanishes(false)
      ensures fate.Arrives? && NothingLost(old(Snapshot()), me) ==> NothingLost(Snapshot(), me)
    {
      SendStatement(me);
      if !tasks[me].pc.Awaiting? {
        return;
      }
      ghost var sent := history;
      Interfere(me);
      ExtendsTransitive(old(history), sent, history);
      AwaitsItsOwn(me);
      match fate
      case Arrives =>
        var k := tasks[me].pc.statement;
        if statements[k].verdict.Unapplied? {
          ExecuteStatement(k);
        }
        ReceiveReply(me);
      case Vanishes(shutdown) =>
        ReceiveError(me, shutdown);
    }

    /** The common body of `claim`, `delete_expired` and `is_ready`: one query, and one more after a reconnect. */
    method RunStatement(me: nat, network: Network)
      requires Present(me) && tasks[me].pc.Acquire?
      modifies this
      ensures Present(me) && Extends(old(history), history)
      ensures tasks[me].pc.Answered? || tasks[me].pc.Failed?
      ensures tasks[me].pc.Answered? ==> network.first.Arrives? || network.second.Arrives?
      ensures tasks[me].pc.Failed? ==> Excused(config, network, old(history), history, me)
      ensures network.first.Arrives? && tasks[me].pc.Answered? ==> NothingLost(Snapshot(), me)
    {
      Placed(me);
      NothingSentYet(config, Snapshot(), me);
      Client(me, network.connects);
      if !tasks[me].pc.Ready? {
        return;
      }
      ghost var acquired, client := history, tasks[me].pc.client;
      Interfere(me);
      ExtendsTransitive(old(history), acquired, history);
      ghost var sending := history;
      Query(me, network.first);
      ExtendsTransitive(old(history), sending, history);
      if !tasks[me].pc.LockWait? {
        return;
      }
      ghost var failedOnce := history;
      assert network.first != Vanishes(true) ==> Closed(Last(config, failedOnce), client);
      Retry(me, network);
      ExtendsTransitive(old(history), failedOnce, history);
    }

    /** The second attempt, on whatever client the reconnect yields. */
    method Retry(me: nat, network: Network)
      requires Present(me) && tasks[me].pc.LockWait? && tasks[me].pc.retry
      modifies this
      ensures Present(me) && Extends(old(history), history)
      ensures tasks[me].pc.Answered? || tasks[me].pc.Failed?
      ensures tasks[me].pc.Answered? ==> network.second.Arrives?
      ensures tasks[me].pc.Failed? ==> SecondFails(config, network, old(history), history)
      ensures tasks[me].pc.Answered? && NothingLost(old(Snapshot()), me) ==> NothingLost(Snapshot(), me)
    {
      Reconnect(me, network.reconnects);
      if !tasks[me].pc.Ready? {
        return;
      }
      ghost var reconnected, client := history, tasks[me].pc.client;
      Interfere(me);
      ExtendsTransitive(old(history), reconnected, history);
      ghost var again := history;
      Query(me, network.second);
      ExtendsTransitive(old(history), again, history);
      ClosedStays(config, again, history);
      assert tasks[me].pc.Failed? && network.second.Arrives? ==> Closed(Last(config, history), client);
    }

    function Completed(me: nat): Completion<nat>
      requires me < |tasks| && (tasks[me].pc.Answered? || tasks[me].pc.Failed?)
      reads this
    {
      if tasks[me].pc.Answered? then Ok(tasks[me].pc.rows) else Err
    }

    /** `row.is_some()`. */
    function IsSome(c: Completion<nat>): Completion<bool> {
      match c
      case Ok(rows) => Ok(rows > 0)
      case Err => Err
    }

    /** `Ok(true)` exactly when this call's own last attempt inserted the row of its request. */
    method Claim(me: nat, network: Network) returns (r: Completion<bool>)
      requires Present(me) && tasks[me].job.Claim? && tasks[me].pc.Acquire?
      modifies this
      ensures Present(me) && Extends(old(history), history)
      ensures (tasks[me].pc.Answered? || tasks[me].pc.Failed?) && r == IsSome(Completed(me))
      ensures r.Err? <==> tasks[me].pc.Failed?
      ensures tasks[me].job == old(tasks[me].job)
      ensures r == Ok(true) <==> Granted(tasks[me])
      ensures r == Ok(true) ==>
                var k := tasks[me].pc.statement;
                && Inserted(Snapshot(), k) && statements[k].task == me
                && statements[k].delivery.Delivered?
                && Some(statements[k].effect.nonce) == tasks[me].job.raw.nonce
      ensures r == Ok(false) ==>
                var k := tasks[me].pc.statement;
                && k < |statements| && statements[k].task == me
                && statements[k].effect.Insert? && Some(statements[k].effect.nonce) == tasks[me].job.raw.nonce
                && statements[k].verdict.Applied? && statements[k].verdict.rows == 0
      ensures r == Ok(false) ==>
                exists j :: InTheWay(Snapshot(), me, j) && TakenBy(Snapshot(), tasks[me].pc.statement, j)
      ensures network.first.Arrives? && OnlyCopy(Snapshot(), me) ==> r != Ok(false)
      ensures r.Err? ==> Excused(config, network, old(history), history, me)
    {
      RunStatement(me, network);
      HistoryKeepsJobs(old(Snapshot()), old(history), me);
      r := IsSome(Completed(me));
      if r == Ok(true) {
        StructureHolds(config, history);
        GrantedInserted(config, Snapshot(), me);
      } else if r == Ok(false) {
        ghost var j := RefusedBecause(config, history, me);
        StructureHolds(config, history);
        InsertOfItsTask(config, Snapshot(), j);
      }
      Placed(me);
    }

    /** Jobs never change along a history. */
    lemma HistoryKeepsJobs(before: State, earlier: Run, me: nat)
      requires Valid() && Extends(earlier, history)
      requires Last(config, earlier) == before && me < |before.tasks|
      ensures me < |tasks| && tasks[me].job == before.tasks[me].job
    {
      TasksKept(config, earlier, history);
    }

    /** `Ok(n)` when this call's own last attempt was executed and removed `n` rows. */
    method DeleteExpired(me: nat, network: Network) returns (r: Completion<nat>)
      requires Present(me) && tasks[me].job.Sweep? && tasks[me].pc.Acquire?
      modifies this
      ensures Present(me) && Extends(old(history), history)
      ensures (tasks[me].pc.Answered? || tasks[me].pc.Failed?) && r == Completed(me)
      ensures r.Err? ==> Excused(config, network, old(history), history, me)
      ensures r.Ok? ==>
                var k := tasks[me].pc.statement;
                && k < |statements| && statements[k].task == me && statements[k].effect.DeleteExpired?
                && statements[k].verdict.Applied? && statements[k].verdict.rows == r.value
    {
      RunStatement(me, network);
      HistoryKeepsJobs(old(Snapshot()), old(history), me);
      r := Completed(me);
      Placed(me);
    }

    // main.rs

    /** The middleware: 401 for what the gate refuses and for replays, 503 when the store fails, else the handler. */
    method VerifyServiceRequest(me: nat, reading: real, network: Network) returns (status: Status)
      requires Present(me) && tasks[me].job.Claim? && tasks[me].pc.Arrived? && 0.0 <= reading < HORIZON
      modifies this
      ensures Present(me) && Extends(old(history), history)
      ensures tasks[me].pc.Executed? || tasks[me].pc.Failed? || tasks[me].pc.Refused?
              || (tasks[me].pc.Answered? && tasks[me].pc.rows == 0)
      ensures tasks[me].pc.Refused? <==> AdmissionAt(old(tasks[me].job.raw), reading).Rejected?
      ensures status.NextRun? <==> tasks[me].pc.Executed?
      ensures status.NextRun? <==> Granted(tasks[me])
      ensures status.ServiceUnavailable? <==> tasks[me].pc.Failed?
      ensures var raw := old(tasks[me].job.raw);
              status.BadRequest? <==>
                && raw.timestamp.Some? && raw.nonce.Some? && raw.signature.Some?
                && (raw.body.None? || |raw.body.value| > 1024 * 1024)
      ensures status.Unauthorized? <==> tasks[me].pc.Answered? || (tasks[me].pc.Refused? && !status.BadRequest?)
      ensures status.ServiceUnavailable? ==>
                Excused(config, network, Then(old(history), Sample(me, reading)), history, me)
      ensures tasks[me].job == old(tasks[me].job)
      ensures AdmissionAt(tasks[me].job.raw, reading).Admitted? ==>
                network.first.Arrives? && OnlyCopy(Snapshot(), me) ==> !status.Unauthorized?
      ensures status.NextRun? ==> WellSigned(config.mac, old(tasks[me].job.raw))
    {
      var admission := CheckSample(me, reading);
      if admission.Rejected? {
        return if admission.why.BadBody? then BadRequest else Unauthorized;
      }
      ghost var admitted := history;
      var claimed := Claim(me, network);
      ExtendsTransitive(old(history), admitted, history);
      match claimed
      case Err => status := ServiceUnavailable;
      case Ok(isNew) =>
        if !isNew {
          return Unauthorized;
        }
        RunNext(me);
        status := NextRun;
    }

    /** Task `me` is a sweep of a replica. */
    predicate SweepOf(replica: nat, me: nat)
      reads this
    {
      me < |tasks| && tasks[me].job.Sweep? && tasks[me].replica == replica
    }

    /** `interval.tick().await`: anybody may move, and at least until `due` nothing else happens here. */
    method AwaitTick(due: real)
      requires Valid() && due < HORIZON
      modifies this
      ensures Valid() && Extends(old(history), history) && due <= clock
    {
      var events: seq<Event> := *;
      for taken := 0 to |events|
        invariant Valid() && Extends(old(history), history)
      {
        if Enabled(config, Snapshot(), events[taken]) {
          Step(events[taken]);
        }
      }
      if clock < due {
        Step(Tick(due));
      }
    }

    /** When tick `t` of a loop started at `start` is due; the first is due at once. */
    function DueAt(start: real, t: nat): real {
      if t == 0 then start else DueAt(start, t - 1) + ReplayRetention.SweepInterval(config.skew) as real
    }

    /** Every tick `t` is due `t` times the greater of the window and thirty seconds after the start. */
    lemma {:induction false} DueAtIs(start: real, t: nat)
      ensures DueAt(start, t) == start + (t * (if config.skew < 30 then 30 else config.skew)) as real
    {
      if t > 0 {
        DueAtIs(start, t - 1);
        var interval := if config.skew < 30 then 30 else config.skew;
        assert t * interval == (t - 1) * interval + interval;
      }
    }

    lemma {:induction false} DueInOrder(start: real, t: nat, u: nat)
      requires t <= u
      ensures DueAt(start, t) <= DueAt(start, u)
    {
      if t < u {
        DueInOrder(start, t, u - 1);
      }
    }

    /** One sweep a tick, one after the other, none before it was due. */
    predicate Ticked(first: nat, begun: real, replica: nat, sweeps: seq<nat>, starts: seq<real>)
      reads this
    {
      && |starts| == |sweeps|
      && AllSweeps(Snapshot(), first, replica, sweeps)
      && (forall t :: 0 <= t < |starts| ==> DueAt(begun, t) <= starts[t])
      && (forall t, u :: 0 <= t < u < |sweeps| ==> sweeps[t] < sweeps[u])
    }

    /**
     The cleanup loop, observed for any number of ticks: one sweep a tick, errors are only logged.  Tick
     `t` comes no earlier than `t` intervals after the start and after the sweep before it has ended.
     */
    method RunNonceCleanup(replica: nat, networks: seq<Network>)
      returns (sweeps: seq<nat>, starts: seq<real>)
      requires Valid() && replica < |replicas|
      requires DueAt(clock, |networks|) < HORIZON
      modifies this
      ensures Valid() && Extends(old(history), history)
      ensures |sweeps| == |networks| && Ticked(|old(tasks)|, old(clock), replica, sweeps, starts)
    {
      sweeps, starts := [], [];
      var begun := clock;
      ghost var first := |tasks|;
      for tick := 0 to |networks|
        invariant Valid() && replica < |replicas| && Extends(old(history), history)
        invariant |sweeps| == tick && first <= |tasks|
        invariant Ticked(first, begun, replica, sweeps, starts)
      {
        ghost var before := history;
        DueInOrder(begun, tick, |networks|);
        var me, start, r := RunTick(replica, DueAt(begun, tick), networks[tick]);
        ExtendsTransitive(old(history), before, history);
        TickedMore(before, first, begun, replica, sweeps, starts, me, start);
        sweeps, starts := sweeps + [me], starts + [start];
      }
    }

    /** One more tick after a history in which those before were as they should. */
    lemma TickedMore(
      before: Run, first: nat, begun: real, replica: nat, sweeps: seq<nat>, starts: seq<real>, me: nat, start: real)
      requires Valid() && Extends(before, history)
      requires first <= |Last(config, before).tasks| <= me && |starts| == |sweeps|
      requires AllSweeps(Last(config, before), first, replica, sweeps)
      requires forall t :: 0 <= t < |starts| ==> DueAt(begun, t) <= starts[t]
      requires forall t, u :: 0 <= t < u < |sweeps| ==> sweeps[t] < sweeps[u]
      requires SweepOf(replica, me) && DueAt(begun, |starts|) <= start
      ensures Ticked(first, begun, replica, sweeps + [me], starts + [start])
      ensures |replicas| == |Last(config, before).replicas| && first <= |tasks|
    {
      TasksKept(config, before, history);
      SweepsStay(Last(config, before), Snapshot(), first, replica, sweeps);
    }

    method RunTick(replica: nat, due: real, network: Network) returns (me: nat, start: real, r: Completion<nat>)
      requires Valid() && replica < |replicas| && due < HORIZON
      modifies this
      ensures Valid() && Extends(old(history), history)
      ensures due <= start && |old(tasks)| <= me && SweepOf(replica, me)
      ensures (tasks[me].pc.Answered? || tasks[me].pc.Failed?) && r == Completed(me)
    {
      AwaitTick(due);
      ghost var ticked := history;
      TasksKept(config, old(history), ticked);
      start := clock;
      me := Spawn(replica, Sweep);
      ghost var spawned := history;
      Interfere(me);
      ghost var waited := history;
      r := DeleteExpired(me, network);
      ExtendsTransitive(spawned, waited, history);
      ExtendsTransitive(ticked, spawned, history);
      ExtendsTransitive(old(history), ticked, history);
      TasksKept(config, spawned, history);
    }

    /** The code inherits the run theorems: here, no replay at any moment of any execution. */
    lemma NoReplay(delay: real)
      requires Valid() && ValidConfig(config)
      requires PromptRun(config, history, delay) && 1.0 + delay <= config.slack as real
      ensures AtMostOnce(Snapshot())
    {
      AtMostOnceHolds(config, history, delay);
    }
  }

  /** All of `sweeps` are sweeps of one replica, none of them older than task `first`. */
  predicate AllSweeps(s: State, first: nat, replica: nat, sweeps: seq<nat>) {
    forall t :: 0 <= t < |sweeps| ==>
      && first <= sweeps[t] < |s.tasks|
      && s.tasks[sweeps[t]].job.Sweep? && s.tasks[sweeps[t]].replica == replica
  }

  lemma SweepsStay(s: State, t: State, first: nat, replica: nat, sweeps: seq<nat>)
    requires TasksGrow(s, t) && AllSweeps(s, first, replica, sweeps)
    ensures AllSweeps(t, first, replica, sweeps)
  {
  }

  /** A closed connection stays closed. */
  lemma {:induction false} ClosedStays(c: Config, earlier: Run, later: Run)
    requires Legal(c, later) && Extends(earlier, later)
    ensures forall g :: Closed(Last(c, earlier), g) ==> Closed(Last(c, later), g)
  {
    if later != earlier {
      ClosedStays(c, earlier, later.before);
      GenerationsOnlyGrow(c, Last(c, later.before), later.event);
    }
  }

  lemma {:induction false} GenerationsKept(c: Config, earlier: Run, later: Run)
    requires Legal(c, later) && Extends(earlier, later)
    ensures |Last(c, earlier).generations| <= |Last(c, later).generations|
  {
    if later != earlier {
      GenerationsKept(c, earlier, later.before);
      GenerationsOnlyGrow(c, Last(c, later.before), later.event);
    }
  }

  /** Along a history nothing recorded of tasks and replicas changes. */
  lemma {:induction false} TasksKept(c: Config, earlier: Run, later: Run)
    requires Legal(c, later) && Extends(earlier, later)
    ensures TasksGrow(Last(c, earlier), Last(c, later))
    ensures |Last(c, later).replicas| == |Last(c, earlier).replicas|
  {
    if later != earlier {
      TasksKept(c, earlier, later.before);
      TasksOnlyGrow(c, Last(c, later.before), later.event);
    }
  }
}
