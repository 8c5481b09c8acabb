/**
 The three guards that the code leaves to its callers: each is exactly what keeps the invariant, and
 for each there is a run without it that does harm.
 */
module Guards {
  import opened Administration
  import opened Allocations
  import opened Options
  import opened Protocol
  import opened ProtocolAdmin
  import opened ProtocolJobs
  import opened ProtocolLocal
  import opened ProtocolScale
  import opened ServerSpecs
  import opened Tables
  import opened Workers

  // ---- Deallocation ----

  /** In a valid state a deallocation keeps the invariant exactly when the allocation is not scaling. */
  lemma DeallocateGuardIsExact(s: State, a: string)
    requires Inv(s)
    ensures Inv(s.(db := DeallocateOutcome(s.db, a).0)) <==> NotScaling(s.db, a)
  {
    if NotScaling(s.db, a) {
      hide Inv;
      DeallocateKeepsInv(s, a);
    } else {
      DeallocatingScaledBreaksInv(s, a);
    }
  }

  lemma ScalingCanDeallocate(s: State, a: string)
    requires Inv(s) && !NotScaling(s.db, a)
    ensures s.db.allocations[a].computeId.Some? && CanDeallocate(s, a, s.db.allocations[a].computeId.value)
    ensures a in s.inFlight || AwaitsScale(s, a)
    ensures s.db.allocations[a].ipAddress in s.db.pool
  {
    hide UnitOk, AddressOk, InFlightOk, JobsOk, ServersOk, Exclusive, LoginsDistinct, CpusDisjoint, AwaitsScale;
    assert AllocationOk(s, a);
  }

  lemma DeallocatingScaledBreaksInv(s: State, a: string)
    requires Inv(s) && !NotScaling(s.db, a)
    ensures !Inv(s.(db := DeallocateOutcome(s.db, a).0))
  {
    hide UnitOk, AddressOk, AllocationOk, ServersOk, Exclusive, LoginsDistinct, CpusDisjoint, DeallocateOutcome;
    ScalingCanDeallocate(s, a);
    DeallocateIsAtomic(s, a, s.db.allocations[a].computeId.value);
    var t := s.(db := DeallocateOutcome(s.db, a).0);
    if a in t.inFlight {
      assert !InFlightOk(t, a);
    } else {
      var filter :| AllocationScale(a, filter) in s.db.jobs;
      assert AllocationScale(a, filter) in t.db.jobs && !JobOk(t, AllocationScale(a, filter));
    }
  }

  /**
   Without the guard a deallocated allocation comes back: deallocation overtakes a running scale, its
   job ends, and the scale worker then commits the target for an allocation that is gone.
   */
  lemma DeallocatedAllocationReturns(s: State, a: string)
    requires Inv(s) && a in s.inFlight
    ensures a in s.db.allocations
    ensures var job := s.inFlight[a];
            var requested := DeallocateOutcome(s.db, a).0;
            var deleted := DeleteFinished(Taken(requested, AllocationDelete(a, job.source)), a, job.source, true);
            var committed := ScaleFinished(deleted.db, a, job, true);
            && AllocationDelete(a, job.source) in requested.jobs && !deleted.raised && !committed.raised
            && a in deleted.db.allocations && a in committed.db.allocations
            && deleted.db.allocations[a].status == Deallocated
            && job.ipAddress in deleted.db.pool && deleted.db.pool[job.ipAddress] == FREE_ADDRESS
            && committed.db.allocations[a].status == AllocationStatus.Allocated
            && committed.db.allocations[a].computeId == Some(job.target)
  {
    hide UnitOk, AddressOk, JobsOk, ServersOk, LoginsDistinct, CpusDisjoint, AwaitsScale, DeallocateOutcome,
         DeleteFinished, ScaleFinished;
    InFlightFacts(s, a);
    var job := s.inFlight[a];
    assert !NotScaling(s.db, a);
    ScalingCanDeallocate(s, a);
    DeallocateIsAtomic(s, a, job.source);
    var requested := DeallocateOutcome(s.db, a).0;
    var taken := Taken(requested, AllocationDelete(a, job.source));
    DeleteAfterScale(s, a, taken);
    var deleted := DeleteFinished(taken, a, job.source, true);
    CommitAfterDelete(s, a, deleted.db);
  }

  /** The other rows of the allocations table, and the keys of the other tables, are those of s. */
  ghost predicate OthersKept(s: State, d: Database, a: string) {
    && d.allocations.Keys == s.db.allocations.Keys && d.units.Keys == s.db.units.Keys
    && d.servers.Keys == s.db.servers.Keys && d.pool.Keys == s.db.pool.Keys
    && (forall b :: b in s.db.allocations && b != a ==> d.allocations[b] == s.db.allocations[b])
  }

  lemma PlacedRowIsAcceptedStill(s: State, d: Database, a: string, row: Allocation)
    requires Inv(s) && a in s.db.allocations && s.db.allocations[a].computeId.Some? && OthersKept(s, d, a)
    requires row.loginUser == s.db.allocations[a].loginUser && row.ipAddress == s.db.allocations[a].ipAddress
    requires row.computeId.Some? ==> Own(s, a, row.computeId.value)
    requires d.KnownServer(row.currentHost)
    ensures d.AcceptsAllocation(a, row)
  {
    hide Inv, Own, Subject;
    var e := d.(allocations := s.db.allocations);
    PlacedRowIsAccepted(s, e, a, row);
    OwnIsUnit(s, a);
    assert forall b :: b in d.allocations && b != a ==> Database.Compatible(row, e.allocations[b]);
  }

  lemma DeleteAfterScale(s: State, a: string, d: Database)
    requires Inv(s) && a in s.inFlight && OthersKept(s, d, a) && a in s.db.allocations
    requires s.inFlight[a].source in s.db.units
    requires s.db.allocations[a].computeId.Some? && s.db.allocations[a].ipAddress in s.db.pool
    requires d.allocations[a].loginUser == s.db.allocations[a].loginUser
    requires d.allocations[a].ipAddress == s.db.allocations[a].ipAddress
    ensures var p := DeleteFinished(d, a, s.inFlight[a].source, true);
            && !p.raised && OthersKept(s, p.db, a)
            && p.db.allocations[a] == d.allocations[a].(status := Deallocated, computeId := None, currentHost := None)
            && p.db.pool[d.allocations[a].ipAddress] == FREE_ADDRESS
  {
    hide Inv, Own;
    var source := s.inFlight[a].source;
    var row := d.allocations[a].(status := Deallocated, computeId := None, currentHost := None);
    var freed := d.(units := d.units[source := d.units[source].(status := UnitStatus.Free, allocationId := None)]);
    PlacedRowIsAcceptedStill(s, freed, a, row);
  }

  lemma CommitAfterDelete(s: State, a: string, d: Database)
    requires Inv(s) && a in s.inFlight && OthersKept(s, d, a) && a in s.db.allocations
    requires s.db.allocations[a].computeId.Some?
    requires d.allocations[a].loginUser == s.db.allocations[a].loginUser
    requires d.allocations[a].ipAddress == s.db.allocations[a].ipAddress == s.inFlight[a].ipAddress
    requires s.inFlight[a].source in s.db.units && s.inFlight[a].target in s.db.units
    requires s.inFlight[a].targetHost in s.db.servers
    requires s.inFlight[a].source != s.inFlight[a].target
    ensures var p := ScaleFinished(d, a, s.inFlight[a], true);
            && !p.raised && a in p.db.allocations
            && p.db.allocations[a].status == AllocationStatus.Allocated
            && p.db.allocations[a].computeId == Some(s.inFlight[a].target)
  {
    hide Inv, Database.AcceptsAllocation;
    var job := s.inFlight[a];
    var row := d.allocations[a].(status := AllocationStatus.Allocated, computeId := Some(job.target),
        currentHost := Some(job.targetHost));
    assert Own(s, a, job.target);
    var first := d.units[job.source := d.units[job.source].(status := UnitStatus.Free, allocationId := None)];
    var second := first[job.target := first[job.target].(status := UnitStatus.Allocated, allocationId := Some(a))];
    PlacedRowIsAcceptedStill(s, d.(units := second), a, row);
  }

  // ---- Server jobs ----

  /** An accepted decommission keeps the invariant exactly under its guard. */
  lemma DecommissionGuardIsExact(s: State, hostname: string)
    requires Inv(s) && hostname in s.db.servers && !ActiveOn(s.db, hostname)
    ensures Inv(s.(db := DecommissionOutcome(s.db, hostname).0)) <==> DecommissionGuard(s, hostname)
  {
    hide AllocationOk, AddressOk, Exclusive, LoginsDistinct, CpusDisjoint, ValidUnits, ActiveOn, ServersOk;
    var t := s.(db := DecommissionOutcome(s.db, hostname).0);
    if DecommissionGuard(s, hostname) {
      DecommissionKeepsInv(s, hostname);
    } else if ServerDecomm(hostname) in s.db.jobs {
      assert t.db.jobs[ServerDecomm(hostname)] >= 2;
    } else if ServerJobFor(s.db, hostname) {
      var r :| ServerInit(r) in s.db.jobs && r.hostname == hostname;
      assert ServerInit(r) in t.db.jobs && !JobOk(t, ServerInit(r));
    } else {
      var a :| a in s.inFlight && s.inFlight[a].targetHost == hostname;
      assert InFlightOk(s, a);
      assert !UnitOk(t, s.inFlight[a].target);
    }
  }

  /**
   Without the guard the target of a running scale can be deleted: the commit then raises half-way,
   after the source was freed under an allocation that is still placed on it.
   */
  lemma DeletedTargetStrandsAllocation(s: State, a: string)
    requires Inv(s) && a in s.inFlight && !ActiveOn(s.db, s.inFlight[a].targetHost)
    ensures var job := s.inFlight[a];
            var requested := DecommissionOutcome(s.db, job.targetHost);
            var gone := DecommFinished(Taken(requested.0, ServerDecomm(job.targetHost)), job.targetHost, Successful);
            var committed := ScaleFinished(gone.db, a, job, true);
            && requested.1 == Queued && !gone.raised && job.target !in gone.db.units
            && committed.raised
            && job.source in committed.db.units && committed.db.units[job.source].status == UnitStatus.Free
            && a in committed.db.allocations && committed.db.allocations[a].computeId == Some(job.source)
            && committed.db.allocations[a].status == Scaling
  {
    hide Inv, ScaleFinished, ActiveOn;
    InFlightFacts(s, a);
    SourceElsewhere(s, a);
    var job := s.inFlight[a];
    var requested := DecommissionOutcome(s.db, job.targetHost);
    var gone := DecommFinished(Taken(requested.0, ServerDecomm(job.targetHost)), job.targetHost, Successful);
    CommitWithoutTarget(gone.db, a, job);
  }

  lemma CommitWithoutTarget(d: Database, a: string, job: ScaleJob)
    requires job.source in d.units && job.target !in d.units && a in d.allocations
    ensures var p := ScaleFinished(d, a, job, true);
            && p.raised && p.db.allocations == d.allocations
            && job.source in p.db.units && p.db.units[job.source].status == UnitStatus.Free
  {
  }

  lemma SourceElsewhere(s: State, a: string)
    requires Inv(s) && a in s.inFlight && !ActiveOn(s.db, s.inFlight[a].targetHost)
    ensures s.inFlight[a].sourceHost != s.inFlight[a].targetHost
  {
    hide UnitOk, AddressOk, JobsOk, ServersOk, LoginsDistinct, CpusDisjoint, AwaitsScale, Exclusive;
    assert InFlightOk(s, a);
  }

  /** An init request keeps the invariant exactly under its guard, unless it raises for want of a zone. */
  lemma InitGuardIsExact(s: State, init: InitRequest)
    requires Inv(s) && ValidUnits(init.specs)
    ensures Inv(s.(db := InitServerOutcome(s.db, init).db)) <==> InitGuard(s, init.hostname) || init.zone.None?
  {
    hide AllocationOk, AddressOk, Exclusive, LoginsDistinct, CpusDisjoint, AllApart, InFlightOk, UnitOk;
    var t := s.(db := InitServerOutcome(s.db, init).db);
    if init.zone.None? {
    } else if InitGuard(s, init.hostname) {
      InitServerKeepsInv(s, init);
    } else if UnitsOn(s.db, init.hostname) {
      var c :| c in s.db.units && s.db.units[c].hostname == init.hostname;
      assert Bare(t.db.servers[t.db.units[c].hostname].status);
    } else if ServerDecomm(init.hostname) in s.db.jobs {
      assert ServerDecomm(init.hostname) in t.db.jobs && !JobOk(t, ServerDecomm(init.hostname));
    } else {
      var r :| ServerInit(r) in s.db.jobs && r.hostname == init.hostname;
      assert ServerInit(r) in t.db.jobs && ServerInit(init) in t.db.jobs && Rival(ServerInit(r), ServerInit(init));
      assert r == init ==> t.db.jobs[ServerInit(r)] >= 2;
    }
  }

  /**
   Without the guard a live placement can be lost: a used host is initialised again, the playbook
   fails, and deleting the host, which its status now permits, takes the unit from under the allocation.
   */
  lemma ReinitialisedHostLosesPlacement(s: State, init: InitRequest, a: string)
    requires Inv(s) && ValidUnits(init.specs) && init.zone.Some? && a in s.db.allocations
    requires s.db.allocations[a].status == AllocationStatus.Allocated
    requires s.db.allocations[a].currentHost == Some(init.hostname)
    ensures var requested := InitServerOutcome(s.db, init).db;
            var failed := InitFinished(Taken(requested, ServerInit(init)), init, Unsuccessful).db;
            var (gone, reply) := DeleteServerOutcome(failed, init.hostname);
            && reply == Done && a in gone.allocations
            && gone.allocations[a] == s.db.allocations[a].(computeId := None, currentHost := None)
            && gone.allocations[a].status == AllocationStatus.Allocated
  {
    hide AddressOk, JobsOk, ServersOk, LoginsDistinct, CpusDisjoint, AwaitsScale, Exclusive, InFlightOk, UnitOk,
         AllApart, InitUnits, InsertedUnits;
    assert AllocationOk(s, a);
  }
}
