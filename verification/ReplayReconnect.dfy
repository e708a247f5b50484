/**
 The reconnect protocol: who may replace a replica's shared client, which client is replaced, and
 how many connections a replica ever shares.
 */
module ReplayReconnect {
  import opened ReplayProtocol
  import opened ReplayStructure

  /** At most one task of a replica is between taking and releasing the mutex. */
  lemma MutualExclusion(c: Config, run: Run, i: nat, j: nat)
    requires Legal(c, run)
    requires var s := Last(c, run);
             i < |s.tasks| && j < |s.tasks| && s.tasks[i].replica == s.tasks[j].replica
             && Critical(s.tasks[i].pc) && Critical(s.tasks[j].pc)
    ensures i == j
  {
    StructureHolds(c, run);
    assert TaskOk(c, Last(c, run), i) && TaskOk(c, Last(c, run), j);
  }

  /**
   The generation an installing task overwrites is the one it checked, and that one was at fault: it is
   the client this very task gave up on, or it was seen closed.  Trouble another task had is no reason.
   */
  lemma ReplacesWhatItChecked(c: Config, run: Run, i: nat)
    requires Legal(c, run) && Enabled(c, Last(c, run), Install(i))
    ensures var s := Last(c, run);
            var after := Next(c, s, Install(i));
            && CurrentOf(s, i) == s.tasks[i].pc.checked
            && Blamed(s, s.tasks[i].pc.checked)
            && (s.tasks[i].pc.checked == s.tasks[i].pc.failed || Closed(s, s.tasks[i].pc.checked))
            && after.generations[s.tasks[i].pc.checked].replaced
            && after.replicas[s.tasks[i].replica].current == s.tasks[i].pc.spare
            && (forall g :: 0 <= g < |s.generations| && g != s.tasks[i].pc.checked ==>
                  after.generations[g].replaced == s.generations[g].replaced)
  {
    StructureHolds(c, run);
    assert TaskOk(c, Last(c, run), i);
  }

  function SharedBy(s: State, r: nat): set<nat> {
    set g | 0 <= g < |s.generations| && s.generations[g].replica == r && s.generations[g].installed
  }

  function ReplacedBy(s: State, r: nat): set<nat> {
    set g | 0 <= g < |s.generations| && s.generations[g].replica == r && s.generations[g].replaced
  }

  function BlamedOf(s: State, r: nat): set<nat> {
    set g | 0 <= g < |s.generations| && s.generations[g].replica == r && Blamed(s, g)
  }

  lemma SubsetSize(a: set<nat>, b: set<nat>)
    requires a <= b
    ensures |a| <= |b|
  {
    assert b == a + (b - a);
  }

  /**
   Connections a replica ever shared: the first one and exactly one per replaced generation; every
   replaced generation was closed or had failed a query, so at most one per distinct bad generation.
   */
  lemma ConnectionsBounded(c: Config, run: Run, r: nat)
    requires Legal(c, run) && r < |Last(c, run).replicas|
    ensures var s := Last(c, run);
            && ReplacedBy(s, r) <= BlamedOf(s, r)
            && |SharedBy(s, r)| == 1 + |ReplacedBy(s, r)|
            && |SharedBy(s, r)| <= 1 + |BlamedOf(s, r)|
  {
    var s := Last(c, run);
    StructureHolds(c, run);
    assert ReplicaOk(s, r);
    var current := s.replicas[r].current;
    forall g: nat
      ensures g in SharedBy(s, r) <==> g in ReplacedBy(s, r) + {current}
      ensures g in ReplacedBy(s, r) ==> g in BlamedOf(s, r) && g != current
    {
      if g < |s.generations| {
        assert GenerationOk(s, g);
      }
    }
    assert SharedBy(s, r) == ReplacedBy(s, r) + {current};
    SubsetSize(ReplacedBy(s, r), BlamedOf(s, r));
  }
}
