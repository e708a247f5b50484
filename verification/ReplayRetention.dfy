/**
 How long a claim occupies the nonce table when every cleanup tick succeeds on time.
 */
module ReplayRetention {
  import opened Text
  import opened ReplayProtocol
  import opened ReplayStructure
  import opened ReplaySafety

  /** The period of `run_nonce_cleanup`. */
  function SweepInterval(skew: int): int {
    if skew < 30 then 30 else skew
  }

  /** How long a row may stay when replica clocks run at most `ahead` seconds ahead of the database. */
  function Lifetime(c: Config, ahead: real): real {
    (2 * c.skew + c.slack + SweepInterval(c.skew)) as real + ahead
  }

  /** Time never passes a sweep that is due, and no replica clock leads the database by more than `ahead`. */
  ghost predicate OnTime(c: Config, s: State, e: Event, ahead: real) {
    && (e.Sample? ==> e.reading <= s.clock + ahead)
    && (e.Tick? ==> e.to <= s.lastSweep + (if c.skew < 30 then 30 else c.skew) as real)
  }

  ghost predicate OnTimeRun(c: Config, run: Run, ahead: real) {
    match run
    case Begin(_) => true
    case Then(before, e) => OnTimeRun(c, before, ahead) && OnTime(c, Last(c, before), e, ahead)
  }

  /** A row was requested for a bounded time, and any row the last sweep saw had not expired then. */
  ghost predicate RowFresh(c: Config, s: State, row: Row, ahead: real) {
    && row.insertedAt <= s.clock
    && row.expires as real <= row.insertedAt + (2 * c.skew + c.slack) as real + ahead
    && (s.lastSweep <= row.expires as real || s.lastSweep <= row.insertedAt)
  }

  ghost predicate Fresh(c: Config, s: State, ahead: real) {
    && s.lastSweep <= s.clock <= s.lastSweep + SweepInterval(c.skew) as real
    && (forall i :: 0 <= i < |s.tasks| ==> s.tasks[i].reading <= s.clock + ahead)
    && (forall n :: n in s.table ==> RowFresh(c, s, s.table[n], ahead))
  }

  lemma ReadingsKept(c: Config, s: State, e: Event, ahead: real)
    requires 0.0 <= ahead && Structure(c, s) && Fresh(c, s, ahead) && Enabled(c, s, e) && OnTime(c, s, e, ahead)
    ensures var after := Next(c, s, e);
            forall i :: 0 <= i < |after.tasks| ==> after.tasks[i].reading <= after.clock + ahead
  {
  }

  lemma NewRowFresh(c: Config, s: State, k: nat, ahead: real)
    requires ValidConfig(c) && Structure(c, s) && Fresh(c, s, ahead) && Enabled(c, s, Execute(k))
    requires s.statements[k].effect.Insert?
    ensures RowFresh(c, s, Row(s.statements[k].effect.expires, k, s.clock), ahead)
  {
    assert StatementOk(c, s, k);
    var i := s.statements[k].task;
    assert TaskOk(c, s, i);
    ExpiryOfAdmitted(c, s.tasks[i]);
  }

  lemma RowsKept(c: Config, s: State, e: Event, ahead: real)
    requires ValidConfig(c) && Structure(c, s) && Fresh(c, s, ahead) && Enabled(c, s, e) && OnTime(c, s, e, ahead)
    ensures var after := Next(c, s, e);
            forall n :: n in after.table ==> RowFresh(c, after, after.table[n], ahead)
  {
    if e.Execute? && s.statements[e.statement].effect.Insert? {
      NewRowFresh(c, s, e.statement, ahead);
    }
  }

  lemma {:induction false} FreshHolds(c: Config, run: Run, ahead: real)
    requires ValidConfig(c) && 0.0 <= ahead && Legal(c, run) && OnTimeRun(c, run, ahead)
    ensures Fresh(c, Last(c, run), ahead)
  {
    match run
    case Begin(s) =>
    case Then(before, e) =>
      FreshHolds(c, before, ahead);
      StructureHolds(c, before);
      ReadingsKept(c, Last(c, before), e, ahead);
      RowsKept(c, Last(c, before), e, ahead);
  }

  /** The claims that inserted their row within the trailing interval. */
  function RecentClaims(s: State, interval: real): set<nat> {
    set k | 0 <= k < |s.statements| && Inserted(s, k) && s.clock - interval <= s.statements[k].verdict.at
  }

  lemma {:induction false} InjectionSize(names: set<Uuid>, claims: set<nat>, owner: map<Uuid, nat>)
    requires forall n :: n in names ==> n in owner && owner[n] in claims
    requires forall m, n :: m in names && n in names && m != n ==> owner[m] != owner[n]
    ensures |names| <= |claims|
  {
    if names != {} {
      var n :| n in names;
      InjectionSize(names - {n}, claims - {owner[n]}, owner);
      assert |names| == |names - {n}| + 1;
    }
  }

  lemma RowAge(c: Config, s: State, n: Uuid, ahead: real)
    requires ValidConfig(c) && 0.0 <= ahead && Fresh(c, s, ahead) && n in s.table
    ensures s.clock - s.table[n].insertedAt <= Lifetime(c, ahead)
  {
    assert RowFresh(c, s, s.table[n], ahead);
  }

  /** Young rows are recent claims, and no two of them are the same claim. */
  lemma YoungRowsAreRecent(s: State, interval: real)
    requires RowsAreClaims(s) && forall n :: n in s.table ==> s.clock - s.table[n].insertedAt <= interval
    ensures |s.table| <= |RecentClaims(s, interval)|
  {
    var owner := map n | n in s.table :: s.table[n].statement;
    InjectionSize(s.table.Keys, RecentClaims(s, interval), owner);
    assert |s.table| == |s.table.Keys|;
  }

  lemma TableBounded(c: Config, s: State, ahead: real)
    requires ValidConfig(c) && 0.0 <= ahead && Fresh(c, s, ahead) && RowsAreClaims(s)
    ensures var longest := (2 * c.skew + c.slack + (if c.skew < 30 then 30 else c.skew)) as real + ahead;
            && (forall n :: n in s.table ==> s.clock - s.table[n].insertedAt <= longest)
            && |s.table| <= |RecentClaims(s, longest)|
  {
    var longest := Lifetime(c, ahead);
    assert longest == (2 * c.skew + c.slack + (if c.skew < 30 then 30 else c.skew)) as real + ahead;
    forall n | n in s.table
      ensures s.clock - s.table[n].insertedAt <= longest
    {
      RowAge(c, s, n, ahead);
    }
    YoungRowsAreRecent(s, longest);
  }

  /**
   If every sweep is on time and replica clocks lead the database by at most `ahead` seconds, no row is
   ever older than 2 * skew + slack + max(skew, 30) + ahead seconds, so the table never holds more rows
   than there were claims in that trailing interval.
   */
  lemma RowLifetimeBounded(c: Config, run: Run, ahead: real)
    requires ValidConfig(c) && 0.0 <= ahead && Legal(c, run) && OnTimeRun(c, run, ahead)
    ensures var s := Last(c, run);
            var longest := (2 * c.skew + c.slack + (if c.skew < 30 then 30 else c.skew)) as real + ahead;
            && (forall n :: n in s.table ==> s.clock - s.table[n].insertedAt <= longest)
            && |s.table| <= |RecentClaims(s, longest)|
  {
    FreshHolds(c, run, ahead);
    TableInvariantHolds(c, run);
    TableBounded(c, Last(c, run), ahead);
  }
}
