/**
 What a failed request leaves behind: the compensation of `allocate` puts every table back, but for one
 abandoned row, and that of `scale` all of them, exactly when the fault did not hide an effect from it.
 */
module Rollback {
  import opened Allocations
  import opened LoginNames
  import opened Options
  import opened Protocol
  import opened ProtocolAllocate
  import opened ProtocolJobs
  import opened ProtocolLocal
  import opened Repository
  import opened Tables
  import opened Workers

  /** The request passes every check, so with no fault at all it would be accepted. */
  ghost predicate Claims(d: Database, request: AllocationRequest) {
    exists unit :: PickUnit(d, request.filter) == Some(unit)
                   && var (id, login) := Identity(request, unit);
                      id !in d.allocations && ProperLogin(login) && !LoginActive(d, login)
                      && exists ip :: FreeIp(d.pool, ip)
  }

  /** An allocation that failed before it was placed: it names no unit and no host. */
  predicate Residue(row: Allocation) {
    row.status == AllocationStatus.AllocationFail && row.computeId.None? && row.currentHost.None?
  }

  ghost predicate OneResidue(d: Database, e: Database) {
    exists id :: id !in d.allocations && id in e.allocations && Residue(e.allocations[id])
                 && e.allocations == d.allocations[id := e.allocations[id]]
  }

  /** Servers, units, addresses and jobs are as before, and at most one row of residue was added. */
  ghost predicate RolledBack(d: Database, e: Database) {
    && e.servers == d.servers && e.units == d.units && e.pool == d.pool && e.jobs == d.jobs
    && (e.allocations == d.allocations || OneResidue(d, e))
  }

  lemma ClaimsAdmits(d: Database, request: AllocationRequest, plan: FaultPlan)
    requires Claims(d, request) && plan.For(ClaimIp) == Works && !plan.Hits(FindById) && !plan.Hits(FindByLogin)
    ensures exists unit, id, row :: Admitted(d, request, plan, unit, id, row)
  {
    hide Identity, ValidLogin, ProperLogin, LoginActive, AdmittedOn;
    var unit := PickUnit(d, request.filter).value;
    ValidLoginIsProper(Identity(request, unit).1);
    PickedIsFree(d, request.filter);
    NoRefusalAdmits(d, request, plan, unit);
    var id, row :| AdmittedOn(d, request, plan, unit, id, row);
    assert Admitted(d, request, plan, unit, id, row);
  }

  lemma AdmittedClaims(d: Database, request: AllocationRequest, plan: FaultPlan, unit: string, id: string,
      row: Allocation)
    requires Admitted(d, request, plan, unit, id, row)
    ensures Claims(d, request) && !plan.Hits(FindById) && !plan.Hits(FindByLogin) && !plan.Hits(ClaimIp)
  {
    hide Identity, ValidLogin, ProperLogin, LoginActive;
    ValidLoginIsProper(Identity(request, unit).1);
  }

  // ---- The three effects that compensation misses ----

  /** The claim of an address took effect, but its answer was lost: the address stays reserved for nobody. */
  lemma LostClaimLeaks(s: State, request: AllocationRequest, plan: FaultPlan)
    requires Inv(s) && Claims(s.db, request) && plan.For(ClaimIp) == FailsAfter
    ensures var (e, reply) := AllocateOutcome(s.db, request, plan);
            && reply == Refused(PreparationFailed) && !RolledBack(s.db, e) && !Inv(s.(db := e))
  {
    hide AllocationOk, InFlightOk, JobsOk, Exclusive, LoginsDistinct, ServersOk, CpusDisjoint, Identity, ValidLogin,
         UnitOk, LoginActive, Settled, FateOf;
    ValidLoginIsProper(Identity(request, PickUnit(s.db, request.filter).value).1);
    var e := AllocateOutcome(s.db, request, plan).0;
    var ip := PickIp(s.db.pool).value;
    assert AddressOk(s, ip);
    assert e.pool == LockIp(s.db.pool);
    assert e.pool[ip].status == IpStatus.Reserved && e.pool[ip].allocationId.None?;
    assert !AddressOk(s.(db := e), ip);
  }

  /** The row was stored, but the insert was reported as failed: the row stays, placed on a free unit. */
  lemma LostRowLeaks(s: State, id: string, row: Allocation, unit: string)
    requires Inv(s) && id !in s.db.allocations && unit in s.db.units && row.ipAddress in s.db.pool
    requires row.status == AllocationStatus.Allocating && row.computeId == Some(unit)
    ensures var e := Settled(s.db, id, row, unit, RowUnreported); !RolledBack(s.db, e) && !Inv(s.(db := e))
  {
    hide UnitOk, InFlightOk, JobsOk, Exclusive, LoginsDistinct, ServersOk, CpusDisjoint, AddressOk;
    var e := Settled(s.db, id, row, unit, RowUnreported);
    assert !AllocationOk(s.(db := e), id);
    OnlyNewRow(s.db, e, id, row);
  }

  lemma OnlyNewRow(d: Database, e: Database, id: string, row: Allocation)
    requires id !in d.allocations && e.allocations == d.allocations[id := row]
    ensures RolledBack(d, e) ==> Residue(row)
  {
    if OneResidue(d, e) {
      var other :| other !in d.allocations && other in e.allocations && Residue(e.allocations[other]);
      assert other == id;
    } else {
      assert id in e.allocations;
    }
  }

  /** The job was queued, but its submission was reported as failed: it stays, for an abandoned allocation. */
  lemma LostJobLeaks(s: State, id: string, row: Allocation, unit: string)
    requires Inv(s) && id !in s.db.allocations && unit in s.db.units && row.ipAddress in s.db.pool
    ensures var e := Settled(s.db, id, row, unit, JobUnreported); !RolledBack(s.db, e) && !Inv(s.(db := e))
  {
    hide UnitOk, InFlightOk, AllocationOk, Exclusive, LoginsDistinct, ServersOk, CpusDisjoint, AddressOk;
    var e := Settled(s.db, id, row, unit, JobUnreported);
    var job := AllocationCreate(id, unit);
    assert e.jobs[job] == s.db.jobs[job] + 1;
    assert !JobOk(s.(db := e), job);
  }

  // ---- The exact condition ----

  lemma StoredRowRollsBack(d: Database, id: string, row: Allocation)
    requires id !in d.allocations
    ensures RolledBack(d, d.(allocations := d.allocations[id := Abandoned(row)]))
  {
    var e := d.(allocations := d.allocations[id := Abandoned(row)]);
    assert id in e.allocations && Residue(e.allocations[id]);
  }

  /**
   A refused request is rolled back, and the state stays valid, exactly when it was turned away by its
   checks or its fault lost no effect.
   */
  lemma RollbackIsExact(s: State, request: AllocationRequest, plan: FaultPlan)
    requires Inv(s) && AllocateOutcome(s.db, request, plan).1.Refused?
    ensures var e := AllocateOutcome(s.db, request, plan).0;
            && (RolledBack(s.db, e) <==> !(Claims(s.db, request) && plan.LosesEffect()))
            && (Inv(s.(db := e)) <==> !(Claims(s.db, request) && plan.LosesEffect()))
  {
    hide AllocateOutcome, Inv, Admitted, RolledBack, Claims, Settled;
    if Claims(s.db, request) && plan.For(ClaimIp) == FailsAfter {
      LostClaimLeaks(s, request, plan);
    } else if unit, id, row :| Admitted(s.db, request, plan, unit, id, row) {
      AdmittedClaims(s.db, request, plan, unit, id, row);
      AdmittedIsSettled(s, request, plan, unit, id, row);
    } else {
      UnclaimedChangesNothing(s, request, plan);
    }
  }

  lemma AdmittedIsSettled(s: State, request: AllocationRequest, plan: FaultPlan, unit: string, id: string,
      row: Allocation)
    requires Inv(s) && Admitted(s.db, request, plan, unit, id, row) && AllocateOutcome(s.db, request, plan).1.Refused?
    requires !plan.Hits(ClaimIp)
    ensures var e := AllocateOutcome(s.db, request, plan).0;
            && (RolledBack(s.db, e) <==> !plan.LosesEffect())
            && (Inv(s.(db := e)) <==> !plan.LosesEffect())
  {
    hide AllocateOutcome, Inv, RolledBack, Settled, Identity, Admission;
    AdmittedOutcome(s, request, plan, unit, id, row);
    var fate := FateOf(plan, true);
    match fate
    case NothingStored =>
      SameIsRolledBack(s.db);
    case RowUnreported =>
      LostRowLeaks(s, id, row, unit);
    case RowStored =>
      StoredRowRollsBack(s.db, id, row);
      AllocateKeepsInv(s, request, plan);
    case JobUnreported =>
      LostJobLeaks(s, id, row, unit);
    case Complete =>
      assert false;
  }

  lemma SameIsRolledBack(d: Database)
    ensures RolledBack(d, d)
  {
  }

  lemma UnclaimedChangesNothing(s: State, request: AllocationRequest, plan: FaultPlan)
    requires Inv(s) && !(Claims(s.db, request) && plan.For(ClaimIp) == FailsAfter)
    requires forall unit, id, row :: !Admitted(s.db, request, plan, unit, id, row)
    ensures var e := AllocateOutcome(s.db, request, plan).0;
            RolledBack(s.db, e) && Inv(s.(db := e)) && !(Claims(s.db, request) && plan.LosesEffect())
  {
    hide AllocateOutcome, Inv, RolledBack, Admitted;
    SameIsRolledBack(s.db);
    if Claims(s.db, request) {
      if !plan.Hits(ClaimIp) && !plan.Hits(FindById) && !plan.Hits(FindByLogin) {
        ClaimsAdmits(s.db, request, plan);
        assert false;
      }
      TurnedAwayChangesNothing(s, request, plan);
    } else if plan.For(ClaimIp) == FailsAfter {
      UnclaimedLosesNothing(s, request, plan);
    } else {
      TurnedAwayChangesNothing(s, request, plan);
    }
  }

  /** A lost claim of an address loses nothing if the request never came to it, or no address was free. */
  lemma UnclaimedLosesNothing(s: State, request: AllocationRequest, plan: FaultPlan)
    requires Inv(s) && !Claims(s.db, request) && plan.For(ClaimIp) == FailsAfter
    ensures AllocateOutcome(s.db, request, plan).0 == s.db
  {
    hide AllocationOk, AddressOk, InFlightOk, JobsOk, Exclusive, LoginsDistinct, ServersOk, CpusDisjoint, Identity,
         Settled, FateOf, ValidLogin, ProperLogin, UnitOk, LoginActive;
    var pick := PickUnit(s.db, request.filter);
    if pick.Some? {
      ValidLoginIsProper(Identity(request, pick.value).1);
      assert UnitOk(s, pick.value);
      FreedUnitIsUnchanged(s, pick.value);
    }
  }

  // ---- Acceptance ----

  /** A request is accepted exactly when it passes every check and no call that it then makes fails. */
  lemma AcceptedIffClaims(s: State, request: AllocationRequest, plan: FaultPlan)
    requires Inv(s)
    ensures AllocateOutcome(s.db, request, plan).1.Accepted? <==>
            Claims(s.db, request) && forall call :: call != ReturnUnit ==> !plan.Hits(call)
  {
    hide AllocateOutcome, Inv, Admitted, RolledBack, Claims, Settled;
    if unit, id, row :| Admitted(s.db, request, plan, unit, id, row) {
      AdmittedClaims(s.db, request, plan, unit, id, row);
      AdmittedOutcome(s, request, plan, unit, id, row);
      CompleteIffNoHit(plan);
    } else {
      if Claims(s.db, request) && forall call :: call != ReturnUnit ==> !plan.Hits(call) {
        assert !plan.Hits(ClaimIp) && !plan.Hits(FindById) && !plan.Hits(FindByLogin);
        ClaimsAdmits(s.db, request, plan);
      }
      if plan.For(ClaimIp) == FailsAfter {
        assert plan.Hits(ClaimIp);
        LostClaimIsRefused(s.db, request, plan);
      } else {
        TurnedAwayChangesNothing(s, request, plan);
      }
    }
  }

  /** What accepting a request means, in terms of the unit and the address it got. */
  lemma AcceptedMeetsRequest(s: State, request: AllocationRequest, plan: FaultPlan)
    requires Inv(s) && AllocateOutcome(s.db, request, plan).1.Accepted?
    ensures var (e, reply) := AllocateOutcome(s.db, request, plan);
            var id := reply.allocationId;
            && id !in s.db.allocations && id in e.allocations && e.allocations[id].computeId.Some?
            && var unit, ip := e.allocations[id].computeId.value, e.allocations[id].ipAddress;
            && unit in s.db.units && s.db.units[unit].status == UnitStatus.Free
            && s.db.units[unit].hostname in s.db.servers && ip in s.db.pool && s.db.pool[ip].status == IpStatus.Free
            && var host := Some(s.db.units[unit].hostname);
            && e.servers == s.db.servers
            && e.allocations == s.db.allocations[
                                  id := Allocation(Identity(request, unit).1, ip, Some(unit), host,
                                                   AllocationStatus.Allocating)]
            && id == Identity(request, unit).0
            && e.units == s.db.units[
                            unit := s.db.units[unit].(status := UnitStatus.Allocating, allocationId := Some(id))]
            && e.pool == s.db.pool[ip := IpAddress(IpStatus.Reserved, Some(id), host)]
            && e.jobs == s.db.jobs + multiset{AllocationCreate(id, unit)}
            && (request.filter.cpuCount.Some? ==> s.db.units[unit].cpuCount == request.filter.cpuCount.value)
            && (var server := s.db.servers[s.db.units[unit].hostname];
                && server.status == Ready && server.health == Healthy
                && (request.filter.region.Some? ==> server.region == request.filter.region.value)
                && (request.filter.zone.Some? ==> server.zone == request.filter.zone.value))
            && (forall other :: s.db.Eligible(request.filter, other) ==> UnitLeq(s.db.units[unit], s.db.units[other]))
            && (forall other :: FreeIp(s.db.pool, other) ==> StringOrder.StrLeq(ip, other))
  {
    hide Inv, Admitted, Claims, AllocateOutcome, UnitLeq, StringOrder.StrLeq, Identity, ValidLogin, LoginActive;
    AcceptedIffClaims(s, request, plan);
    assert !plan.Hits(ClaimIp) && !plan.Hits(FindById) && !plan.Hits(FindByLogin);
    ClaimsAdmits(s.db, request, plan);
    var unit, id, row :| Admitted(s.db, request, plan, unit, id, row);
    AdmittedOutcome(s, request, plan, unit, id, row);
    AdmittedPicks(s.db, request, plan, unit, id, row);
  }

  lemma AdmittedPicks(d: Database, request: AllocationRequest, plan: FaultPlan, unit: string, id: string,
      row: Allocation)
    requires Admitted(d, request, plan, unit, id, row)
    ensures FirstEligible(d, request.filter, unit) && FirstFreeIp(d.pool, row.ipAddress)
    ensures row.computeId == Some(unit)
    ensures Identity(request, unit) == (id, row.loginUser)
    ensures row == NewRow(row.loginUser, row.ipAddress, unit, d.units[unit].hostname)
  {
    hide Identity, ValidLogin, LoginActive, UnitLeq, StringOrder.StrLeq;
  }

  lemma CompleteIffNoHit(plan: FaultPlan)
    requires !plan.Hits(FindById) && !plan.Hits(FindByLogin) && !plan.Hits(ClaimIp)
    ensures FateOf(plan, true).Complete? <==> forall call :: call != ReturnUnit ==> !plan.Hits(call)
  {
    if forall call :: call != ReturnUnit ==> !plan.Hits(call) {
      assert !plan.Hits(Audit) && !plan.Hits(InsertRow) && !plan.Hits(AssignIp) && !plan.Hits(AssignUnit)
          && !plan.Hits(Enqueue);
    }
  }

  lemma LostClaimIsRefused(d: Database, request: AllocationRequest, plan: FaultPlan)
    requires plan.Hits(ClaimIp)
    ensures AllocateOutcome(d, request, plan).1.Refused?
  {
    hide Identity, ValidLogin, LoginActive;
  }

  // ---- Scale ----

  /**
   A scale request whose enqueue failed is undone, and leaves a valid state, exactly when the job was not
   queued after all.
   */
  lemma ScaleUndoIsExact(s: State, a: string, request: ScaleRequest, fault: CallFault)
    requires Inv(s) && ScaleOutcome(s.db, a, request, fault).1 == EnqueueFailed
    ensures var e := ScaleOutcome(s.db, a, request, fault).0;
            && (e == s.db <==> fault == FailsBefore)
            && (Inv(s.(db := e)) <==> fault == FailsBefore)
  {
    hide Inv, ScaleOutcome;
    if !CanScale(s, a, request) {
      ScaleRefused(s, a, request, fault);
    }
    ScaleIsAtomic(s, a, request);
    if fault == FailsAfter {
      StrayScaleBreaksInv(s, a, ScaleFilter(request));
    }
  }

  lemma StrayScaleBreaksInv(s: State, a: string, filter: Filter)
    requires a in s.db.allocations && s.db.allocations[a].status == AllocationStatus.Allocated
    ensures var e := s.db.(jobs := s.db.jobs + multiset{AllocationScale(a, filter)}); e != s.db && !Inv(s.(db := e))
  {
    hide UnitOk, InFlightOk, AllocationOk, Exclusive, LoginsDistinct, ServersOk, CpusDisjoint, AddressOk;
    var job := AllocationScale(a, filter);
    var e := s.db.(jobs := s.db.jobs + multiset{job});
    assert e.jobs[job] == s.db.jobs[job] + 1;
    assert !JobOk(s.(db := e), job);
  }

  /**
   The stray job is not harmless: the worker does not look at the status, so it locks a target for an
   allocation that is ALLOCATED, or marks that allocation as failed to scale.
   */
  lemma StrayScaleRuns(s: State, a: string, request: ScaleRequest)
    requires Inv(s) && CanScale(s, a, request)
    ensures var filter := ScaleFilter(request);
            var e := ScaleOutcome(s.db, a, request, FailsAfter).0;
            var job := AllocationScale(a, filter);
            && job in e.jobs && a in e.allocations && e.allocations[a].status == AllocationStatus.Allocated
            && var (after, scale) := ScaleBegun(Taken(e, job), a, filter);
            && (scale.Some? <==> PickUnit(s.db, filter).Some?)
            && a in after.allocations
            && after.allocations[a].status == if scale.Some? then AllocationStatus.Allocated else ScaleFail
  {
    hide Inv, ScaleOutcome, Database.AcceptsAllocation;
    var filter := ScaleFilter(request);
    var job := AllocationScale(a, filter);
    ScaleIsAtomic(s, a, request);
    var e := ScaleOutcome(s.db, a, request, FailsAfter).0;
    var d := Taken(e, job);
    assert d.jobs == s.db.jobs;
    assert d == s.db;
    UnitHostKnown(s, s.db.allocations[a].computeId.value);
    PlacedHostKnown(s, a);
    PlacedRowIsAccepted(s, s.db, a, s.db.allocations[a].(status := ScaleFail));
  }

  lemma PlacedHostKnown(s: State, a: string)
    requires Inv(s) && a in s.db.allocations && s.db.allocations[a].computeId.Some?
    ensures s.db.KnownServer(s.db.allocations[a].currentHost) && Own(s, a, s.db.allocations[a].computeId.value)
  {
    hide JobsOk, AddressOk, InFlightOk, ServersOk, Exclusive, LoginsDistinct, CpusDisjoint, AwaitsScale, UnitOk;
    assert AllocationOk(s, a);
    UnitHostKnown(s, s.db.allocations[a].computeId.value);
  }
}
