/** The two PostgreSQL batch loops that give agents an archive and passages its id
    (alembic/versions/74e860718e0d_add_archival_memory_sharing.py:225-374). */
module Archive {
  import opened Wrappers

  datatype Passage = Passage(agent: nat, deleted: bool, archive: Option<nat>)

  /** A row of archives_agents; the migration writes owning ones only. */
  datatype Link = Link(agent: nat, archive: nat)

  /** How the two inserts for an agent go. */
  datatype Inserts = BothSucceed | ArchiveFails | LinkFails

  // -------------------------------------------------------------------- set helpers

  lemma SubsetOfSize<T>(s: set<T>, n: nat)
    requires n <= |s|
    ensures exists t :: t <= s && |t| == n
  {
    if n == 0 {
      var none: set<T> := {};
      assert none <= s && |none| == 0;
    } else {
      var x :| x in s;
      SubsetOfSize(s - {x}, n - 1);
      var t :| t <= s - {x} && |t| == n - 1;
      assert t + {x} <= s && |t + {x}| == n;
    }
  }

  lemma SubsetCard<T>(s: set<T>, t: set<T>)
    requires t <= s
    ensures |s - t| == |s| - |t| && |t| <= |s|
  {
    assert s == t + (s - t);
  }

  /** gen_random_uuid finds an id that is not taken. */
  lemma {:induction false} FreshId(taken: set<nat>) returns (n: nat)
    ensures forall t <- taken :: t < n
    decreases taken
  {
    n := 0;
    if taken != {} {
      var x :| x in taken;
      var m := FreshId(taken - {x});
      n := if x < m then m else x + 1;
      assert forall t <- taken :: t == x || t in taken - {x};
    }
  }

  class Database {
    var agents: set<nat>
    var passages: seq<Passage>
    var archives: set<nat>
    var links: seq<Link>
    /** A statement failed: PostgreSQL refuses all others until the transaction is rolled back. */
    var aborted: bool

    constructor (agents: set<nat>, passages: seq<Passage>)
      ensures this.agents == agents && this.passages == passages && archives == {} && links == [] && !aborted
    {
      this.agents := agents;
      this.passages := passages;
      archives, links, aborted := {}, [], false;
    }

    // ------------------------------------------------------------------- the queries

    /** Agents with a live passage. */
    function LiveAgents(): set<nat>
      reads this
    {
      set p <- passages | !p.deleted && p.agent in agents :: p.agent
    }

    function Linked(): set<nat>
      reads this
    {
      set l <- links :: l.agent
    }

    function LinkedArchives(): set<nat>
      reads this
    {
      set l <- links :: l.archive
    }

    /** Live passages without an archive id, by position. */
    function Unfiled(): set<nat>
      reads this
    {
      set i | 0 <= i < |passages| && !passages[i].deleted && passages[i].archive == None
    }

    /** Of these, the ones whose agent has no archive. */
    function Orphans(): set<nat>
      reads this
    {
      set i <- Unfiled() | passages[i].agent !in Linked()
    }

    /** The foreign key of agent_passages. */
    ghost predicate AgentsExist()
      reads this
    {
      forall p <- passages :: p.agent in agents
    }

    /** No agent and no archive is linked twice, links lead to archives, and a passage's archive
        id is the one of its agent. */
    ghost predicate Consistent()
      reads this
    {
      && (forall i, j :: 0 <= i < j < |links| ==> links[i].agent != links[j].agent && links[i].archive != links[j].archive)
      && (forall l <- links :: l.archive in archives)
      && (forall p <- passages :: p.archive.Some? ==> !p.deleted && Link(p.agent, p.archive.value) in links)
    }

    // --------------------------------------------------------------------- first loop

    /** The inserts for one agent; that they fail or are refused is reported and passed over. */
    method CreateArchive(agent: nat, inserts: Inserts)
      requires Consistent() && agent !in Linked()
      modifies this`archives, this`links, this`aborted
      ensures Consistent()
      ensures aborted <==> old(aborted) || inserts != BothSucceed
      ensures !aborted ==> exists id :: id !in old(archives) && archives == old(archives) + {id} && links == old(links) + [Link(agent, id)]
      ensures !aborted ==> Linked() == old(Linked()) + {agent} && LinkedArchives() == old(LinkedArchives()) + (archives - old(archives))
      ensures aborted ==> links == old(links)
    {
      if aborted { return; }
      if inserts == ArchiveFails { aborted := true; return; }
      ghost var free := FreshId(archives);
      assert free !in archives;
      var id: nat :| id !in archives;
      archives := archives + {id};
      if inserts == LinkFails { aborted := true; return; }
      ghost var before := links;
      links := links + [Link(agent, id)];
      assert links[|before|] == Link(agent, id);
      assert forall l <- before :: l in links;
    }

    /** The first loop, which raises when a query is refused. */
    method CreateArchives(batchSize: nat, inserts: nat -> Inserts) returns (raised: bool)
      requires Consistent() && batchSize > 0 && !aborted && links == []
      modifies this`archives, this`links, this`aborted
      ensures Consistent() && raised == aborted
      ensures raised <==> !AllSucceed(inserts, LiveAgents())
      ensures !raised ==> Linked() == LiveAgents() && archives == old(archives) + LinkedArchives()
    {
      var totalAgents := |LiveAgents()|;
      var offset := 0;
      while offset < totalAgents
        invariant Consistent() && Linked() <= LiveAgents()
        invariant aborted ==> !AllSucceed(inserts, LiveAgents())
        invariant !aborted ==> offset == |Linked()| && AllSucceed(inserts, Linked()) && archives == old(archives) + LinkedArchives()
        decreases totalAgents - offset
      {
        if aborted { return true; }
        var batchCount := CreateSomeBatch(batchSize, inserts);
        if batchCount == 0 { break; }
        offset := offset + batchCount;
      }
      SubsetCard(LiveAgents(), Linked());
      raised := aborted;
    }

    /** One turn of the first loop: some batch of the agents that are not linked yet, if there are any. */
    method CreateSomeBatch(batchSize: nat, inserts: nat -> Inserts) returns (batchCount: nat)
      requires Consistent() && batchSize > 0 && !aborted && Linked() <= LiveAgents()
      modifies this`archives, this`links, this`aborted
      ensures Consistent() && Linked() <= LiveAgents()
      ensures batchCount == 0 <==> old(Linked()) == LiveAgents()
      ensures batchCount == 0 ==> links == old(links) && archives == old(archives) && !aborted
      ensures aborted ==> !AllSucceed(inserts, LiveAgents())
      ensures !aborted ==>
        && |Linked()| == old(|Linked()|) + batchCount && AllSucceed(inserts, Linked() - old(Linked()))
        && old(archives) <= archives && LinkedArchives() == old(LinkedArchives()) + (archives - old(archives))
    {
      batchCount := 0;
      var eligible := LiveAgents() - Linked();
      var n := if |eligible| < batchSize then |eligible| else batchSize;
      SubsetCard(LiveAgents(), Linked());
      SubsetOfSize(eligible, n);
      var batch :| batch <= eligible && |batch| == n;
      if batch == {} {
        assert LiveAgents() == Linked() + eligible;
        return;
      }
      ghost var linked := Linked();
      CreateBatch(batch, inserts);
      assert |linked + batch| == |linked| + |batch|;
      batchCount := |batch|;
    }

    method CreateBatch(batch: set<nat>, inserts: nat -> Inserts)
      requires Consistent() && batch !! Linked() && !aborted
      modifies this`archives, this`links, this`aborted
      ensures Consistent() && old(Linked()) <= Linked() <= old(Linked()) + batch
      ensures aborted <==> !AllSucceed(inserts, batch)
      ensures !aborted ==> Linked() == old(Linked()) + batch
      ensures !aborted ==> old(archives) <= archives && LinkedArchives() == old(LinkedArchives()) + (archives - old(archives))
    {
      var todo := batch;
      while todo != {}
        invariant Consistent() && todo <= batch && todo !! Linked()
        invariant old(Linked()) <= Linked() <= old(Linked()) + (batch - todo)
        invariant aborted <==> !AllSucceed(inserts, batch - todo)
        invariant !aborted ==> Linked() == old(Linked()) + (batch - todo)
        invariant !aborted ==> old(archives) <= archives && LinkedArchives() == old(LinkedArchives()) + (archives - old(archives))
        decreases todo
      {
        var agent :| agent in todo;
        ghost var done := batch - todo;
        CreateArchive(agent, inserts(agent));
        todo := todo - {agent};
        assert batch - todo == done + {agent};
      }
      assert batch - todo == batch;
    }

    // -------------------------------------------------------------------- second loop

    /** UPDATE .. SET archive_id FROM archives_agents, for the passages of one sub-select. */
    method FileBatch(batch: set<nat>) returns (rowsUpdated: nat)
      requires Consistent() && batch <= Unfiled()
      modifies this`passages
      ensures Consistent() && SameButFiled(old(passages), passages)
      ensures Unfiled() == old(Unfiled()) - (batch - old(Orphans())) && Orphans() == old(Orphans())
      ensures rowsUpdated == |batch - old(Orphans())|
    {
      ghost var before, unfiled, orphans := passages, Unfiled(), Orphans();
      MatchedExactly(batch);
      rowsUpdated := |Matched(batch, passages)|;
      passages := seq(|passages|, i requires 0 <= i < |passages| reads this =>
        if i in batch && FindLink(links, passages[i].agent).Some?
        then passages[i].(archive := FindLink(links, passages[i].agent)) else passages[i]);
      forall p <- passages | p.archive.Some? ensures !p.deleted && Link(p.agent, p.archive.value) in links {
        var i :| 0 <= i < |passages| && passages[i] == p;
        assert before[i] in before;
      }
      OrphansStay(before, unfiled, orphans, batch);
    }

    /** The passages of a batch whose agent has an archive. */
    function Matched(batch: set<nat>, rows: seq<Passage>): set<nat>
      reads this`links
    {
      set i <- batch | i < |rows| && FindLink(links, rows[i].agent).Some?
    }

    /** One update statement on some batch.  None of a batch is matched only if the orphans fill
        it, or nothing else is left. */
    method FileSomeBatch(batchSize: nat) returns (rowsUpdated: nat)
      requires Consistent() && batchSize > 0
      modifies this`passages
      ensures Consistent() && SameButFiled(old(passages), passages)
      ensures Unfiled() <= old(Unfiled()) && rowsUpdated + |Unfiled()| == old(|Unfiled()|)
      ensures Orphans() == old(Orphans())
      ensures rowsUpdated == 0 && |Orphans()| < batchSize ==> Unfiled() == Orphans()
    {
      var unfiled := Unfiled();
      var n := if |unfiled| < batchSize then |unfiled| else batchSize;
      SubsetOfSize(unfiled, n);
      var batch :| batch <= unfiled && |batch| == n;
      BatchCounts(unfiled, Orphans(), batch, batchSize);
      rowsUpdated := FileBatch(batch);
    }

    /** What a batch without its orphans leaves. */
    lemma BatchCounts(unfiled: set<nat>, orphans: set<nat>, batch: set<nat>, batchSize: nat)
      requires orphans <= unfiled && batch <= unfiled && |batch| == (if |unfiled| < batchSize then |unfiled| else batchSize)
      ensures |batch - orphans| + |unfiled - (batch - orphans)| == |unfiled|
      ensures |batch - orphans| == 0 && |orphans| < batchSize ==> unfiled == orphans
    {
      SubsetCard(unfiled, batch - orphans);
      if |batch - orphans| == 0 && |orphans| < batchSize {
        assert batch - orphans == {};
        SubsetCard(orphans, batch);
        SubsetCard(unfiled, batch);
      }
    }

    lemma OrphansStay(before: seq<Passage>, unfiled: set<nat>, orphans: set<nat>, batch: set<nat>)
      requires SameButFiled(before, passages)
      requires orphans == set i <- unfiled | i < |before| && before[i].agent !in Linked()
      requires Unfiled() == unfiled - (batch - orphans)
      ensures Orphans() == orphans
    {
    }

    /** The second loop, on its own: it ends early when one batch holds orphans only, and with fewer
        of them than a batch it files every live passage whose agent has an archive.  Behind the
        first loop there are no orphans. */
    method FilePassages(batchSize: nat)
      requires Consistent() && batchSize > 0
      modifies this`passages
      ensures Consistent() && SameButFiled(old(passages), passages)
      ensures old(Orphans()) <= Unfiled() <= old(Unfiled())
      ensures old(|Orphans()|) < batchSize ==> Unfiled() == old(Orphans())
    {
      var totalPassages := |Unfiled()|;
      var updatedPassages := 0;
      ghost var start := passages;
      while updatedPassages < totalPassages
        invariant Consistent() && SameButFiled(start, passages)
        invariant Unfiled() <= old(Unfiled()) && Orphans() == old(Orphans())
        invariant updatedPassages + |Unfiled()| == totalPassages
        decreases totalPassages - updatedPassages
      {
        ghost var before := passages;
        var rowsUpdated := FileSomeBatch(batchSize);
        FiledTwice(start, before, passages);
        if rowsUpdated == 0 { break; }
        updatedPassages := updatedPassages + rowsUpdated;
      }
    }

    lemma MatchedExactly(batch: set<nat>)
      requires batch <= Unfiled()
      ensures Matched(batch, passages) == batch - Orphans()
    {
      forall i <- batch ensures FindLink(links, passages[i].agent).Some? <==> passages[i].agent in Linked() {
        if passages[i].agent in Linked() {
          var l :| l in links && l.agent == passages[i].agent;
        }
      }
    }

    /** For the second loop on its own: while a passage can still be filed, it may come upon a
        batch of orphans only exactly when they fill a batch. */
    lemma MayStopEarlyExactly(batchSize: nat)
      requires batchSize > 0 && Unfiled() != Orphans()
      ensures (exists batch :: batch <= Unfiled() && |batch| == (if |Unfiled()| < batchSize then |Unfiled()| else batchSize)
                            && Matched(batch, passages) == {})
         <==> |Orphans()| >= batchSize
    {
      var n := if |Unfiled()| < batchSize then |Unfiled()| else batchSize;
      SubsetCard(Unfiled(), Orphans());
      assert Unfiled() - Orphans() != {};
      if batch :| batch <= Unfiled() && |batch| == n && Matched(batch, passages) == {} {
        MatchedExactly(batch);
        SubsetCard(Orphans(), batch);
      }
      if |Orphans()| >= batchSize {
        SubsetOfSize(Orphans(), n);
        var batch :| batch <= Orphans() && |batch| == n;
        MatchedExactly(batch);
      }
    }

    lemma SameLiveAgents(before: seq<Passage>)
      requires SameButFiled(before, passages)
      ensures LiveAgents() == set p <- before | !p.deleted && p.agent in agents :: p.agent
    {
      forall a | a in (set p <- before | !p.deleted && p.agent in agents :: p.agent) ensures a in LiveAgents() {
        var i :| 0 <= i < |before| && before[i].agent == a && !before[i].deleted && a in agents;
        assert passages[i] in passages;
      }
      forall a <- LiveAgents() ensures a in (set p <- before | !p.deleted && p.agent in agents :: p.agent) {
        var i :| 0 <= i < |passages| && passages[i].agent == a && !passages[i].deleted && a in agents;
        assert before[i] in before;
      }
    }

    // ------------------------------------------------------------------- the whole step

    /** ALTER COLUMN archive_id SET NOT NULL goes through. */
    predicate NotNullHolds()
      reads this
    {
      forall p <- passages :: p.archive.Some?
    }

    /** Data migration, from empty archive tables and a fresh archive_id column.  A failed insert
        for any agent makes it raise, and the transaction is rolled back; otherwise it goes
        through for all agents. */
    method Upgrade(batchSize: nat, updateBatchSize: nat, inserts: nat -> Inserts) returns (raised: bool)
      requires batchSize > 0 && updateBatchSize > 0
      requires AgentsExist() && links == [] && !aborted && forall p <- passages :: p.archive == None
      modifies this
      ensures raised <==> !AllSucceed(inserts, old(LiveAgents()))
      ensures agents == old(agents)
      ensures !aborted
      ensures raised ==> passages == old(passages) && archives == old(archives) && links == old(links)
      ensures !raised ==>
        && Consistent() && SameButFiled(old(passages), passages)
        && LiveAgents() == old(LiveAgents()) == Linked() && archives == old(archives) + LinkedArchives()
        && (forall p <- passages :: if p.deleted then p.archive == None
                                    else p.archive.Some? && Link(p.agent, p.archive.value) in links)
        && (NotNullHolds() <==> forall p <- passages :: !p.deleted)
    {
      ghost var live := LiveAgents();
      var savedArchives, savedLinks := archives, links;
      raised := false;
      assert forall p <- passages :: p.deleted || p.agent in live;
      if |LiveAgents()| > 0 {
        raised := CreateArchives(batchSize, inserts);
        if raised {
          archives, links, aborted := savedArchives, savedLinks, false;
          return;
        }
        FilePassages(updateBatchSize);
      }
      assert Linked() == live && Unfiled() == {};
      forall p <- passages ensures p.deleted || p.archive.Some? {
        var i :| 0 <= i < |passages| && passages[i] == p;
        assert i !in Unfiled();
      }
      assert LiveAgents() == live by { SameLiveAgents(old(passages)); }
    }
  }

  ghost predicate AllSucceed(inserts: nat -> Inserts, agents: set<nat>) {
    forall a <- agents :: inserts(a) == BothSucceed
  }

  /** One agent with one deleted passage: NOT NULL fails behind a migration without failures. */
  method DeletedPassageFails() returns (database: Database, raised: bool)
    ensures !raised && !database.NotNullHolds()
  {
    database := new Database({0}, [Passage(0, true, None)]);
    raised := database.Upgrade(1000, 5000, agent => BothSucceed);
    assert database.passages[0] in database.passages;
  }

  function FindLink(links: seq<Link>, agent: nat): (r: Option<nat>)
    ensures r.Some? ==> Link(agent, r.value) in links
    ensures r.None? ==> forall l <- links :: l.agent != agent
  {
    if links == [] then None
    else if links[0].agent == agent then Some(links[0].archive)
    else FindLink(links[1..], agent)
  }

  /** Filing changes no passage but for an archive id that was missing. */
  ghost predicate SameButFiled(before: seq<Passage>, after: seq<Passage>) {
    && |before| == |after|
    && forall i :: 0 <= i < |before| ==>
      after[i] == before[i].(archive := after[i].archive) && (before[i].archive.Some? ==> after[i] == before[i])
  }

  lemma FiledTwice(a: seq<Passage>, b: seq<Passage>, c: seq<Passage>)
    requires SameButFiled(a, b) && SameButFiled(b, c)
    ensures SameButFiled(a, c)
  {
  }
}
