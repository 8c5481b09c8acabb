/** The step of an allocation request, and what its compensation restores when one of its calls fails. */
module ProtocolAllocate {
  import opened Allocations
  import opened Options
  import opened Protocol
  import opened ProtocolJobs
  import opened ProtocolLocal
  import opened Repository
  import opened Tables

  /** On this unit the request gets past the checks and claims this address. */
  ghost predicate AdmittedOn(d: Database, request: AllocationRequest, plan: FaultPlan,
                             unit: string, id: string, row: Allocation) {
    && unit in d.units
    && Identity(request, unit).0 == id
    && Admission(d, id, row.loginUser, plan).None?
    && row == NewRow(Identity(request, unit).1, row.ipAddress, unit, d.units[unit].hostname)
    && PickIp(d.pool) == Some(row.ipAddress)
  }

  /** The request got past the checks: it has claimed this unit and this address. */
  ghost predicate Admitted(d: Database, request: AllocationRequest, plan: FaultPlan,
                           unit: string, id: string, row: Allocation) {
    PickUnit(d, request.filter) == Some(unit) && AdmittedOn(d, request, plan, unit, id, row)
  }

  ghost predicate FreeUnitOf(d: Database, unit: string) {
    unit in d.units && d.units[unit].status == UnitStatus.Free
  }

  lemma FreedUnitIsUnchanged(s: State, unit: string)
    requires unit in s.db.units && UnitOk(s, unit) && s.db.units[unit].status == UnitStatus.Free
    ensures FreedUnit(s.db, unit) == s.db
  {
    assert s.db.units[unit := s.db.units[unit]] == s.db.units;
  }

  lemma ReleasedIsUnchanged(s: State, ip: string)
    requires ip in s.db.pool && AddressOk(s, ip) && s.db.pool[ip].status == IpStatus.Free
    ensures s.db.pool[ip := FREE_ADDRESS] == s.db.pool
  {
  }

  lemma NoRefusalAdmits(d: Database, request: AllocationRequest, plan: FaultPlan, unit: string)
    requires unit in d.units
    requires Admission(d, Identity(request, unit).0, Identity(request, unit).1, plan).None?
    ensures exists id, row :: AdmittedOn(d, request, plan, unit, id, row)
  {
    var (id, login) := Identity(request, unit);
    assert AdmittedOn(d, request, plan, unit, id, NewRow(login, PickIp(d.pool).value, unit, d.units[unit].hostname));
  }

  /** A request turned away by a check leaves the database exactly as it was. */
  lemma TurnedAwayOnChangesNothing(s: State, request: AllocationRequest, plan: FaultPlan, unit: string)
    requires Inv(s) && FreeUnitOf(s.db, unit) && plan.For(ClaimIp) != FailsAfter
    requires forall id, row :: !AdmittedOn(s.db, request, plan, unit, id, row)
    ensures AllocateOn(s.db, request, plan, unit).0 == s.db && AllocateOn(s.db, request, plan, unit).1.Refused?
  {
    hide AllocationOk, AddressOk, InFlightOk, JobsOk, Exclusive, LoginsDistinct, ServersOk, CpusDisjoint, Identity,
         Settled, FateOf, ValidLogin, UnitOk, LoginActive;
    var (id, login) := Identity(request, unit);
    assert UnitOk(s, unit);
    FreedUnitIsUnchanged(s, unit);
    if Admission(s.db, id, login, plan).None? {
      NoRefusalAdmits(s.db, request, plan, unit);
    }
  }

  lemma TurnedAwayChangesNothing(s: State, request: AllocationRequest, plan: FaultPlan)
    requires Inv(s) && plan.For(ClaimIp) != FailsAfter
    requires forall unit, id, row :: !Admitted(s.db, request, plan, unit, id, row)
    ensures AllocateOutcome(s.db, request, plan).0 == s.db && AllocateOutcome(s.db, request, plan).1.Refused?
  {
    hide Inv, AllocateOn, AdmittedOn;
    var pick := PickUnit(s.db, request.filter);
    if pick.Some? {
      forall id, row ensures !AdmittedOn(s.db, request, plan, pick.value, id, row) {
        assert !Admitted(s.db, request, plan, pick.value, id, row);
      }
      TurnedAwayOnChangesNothing(s, request, plan, pick.value);
    }
  }

  /** The schema accepts the row of an admitted request: no index is hit. */
  lemma NewRowIsAccepted(s: State, request: AllocationRequest, plan: FaultPlan, unit: string, id: string,
      row: Allocation)
    requires Inv(s) && FreeUnitOf(s.db, unit) && AdmittedOn(s.db, request, plan, unit, id, row)
    ensures s.db.AcceptsAllocation(id, row)
  {
    hide AddressOk, InFlightOk, JobsOk, Exclusive, LoginsDistinct, ServersOk, CpusDisjoint, Identity, ValidLogin,
         AwaitsScale, UnitOk;
    assert UnitOk(s, unit);
    UnitHostKnown(s, unit);
    forall b | b in s.db.allocations && b != id ensures Database.Compatible(row, s.db.allocations[b]) {
      assert AllocationOk(s, b);
    }
  }

  lemma AdmittedOnOutcome(s: State, request: AllocationRequest, plan: FaultPlan, unit: string, id: string,
      row: Allocation)
    requires Inv(s) && FreeUnitOf(s.db, unit) && AdmittedOn(s.db, request, plan, unit, id, row)
    ensures row.ipAddress in s.db.pool && id !in s.db.allocations && s.db.pool[row.ipAddress].status == IpStatus.Free
    ensures var fate := FateOf(plan, true);
            AllocateOn(s.db, request, plan, unit) ==
            (Settled(s.db, id, row, unit, fate), if fate.Complete? then Accepted(id) else Refused(PreparationFailed))
    ensures Settled(s.db, id, row, unit, NothingStored) == s.db
    ensures Settled(s.db, id, row, unit, RowStored) == s.db.(allocations := s.db.allocations[id := Abandoned(row)])
    ensures Settled(s.db, id, row, unit, Complete) == AllocatedDb(s.db, id, row, unit)
  {
    NewRowIsAccepted(s, request, plan, unit, id, row);
    hide AllocationOk, InFlightOk, JobsOk, Exclusive, LoginsDistinct, ServersOk, CpusDisjoint, Identity, ValidLogin,
         FateOf, UnitOk, AddressOk, Database.AcceptsAllocation, LoginActive;
    assert UnitOk(s, unit) && AddressOk(s, row.ipAddress);
    SettledLeaves(s, id, row, unit);
    hide Settled, FreedUnit;
  }

  /** On rows that were free, giving back is undoing. */
  lemma SettledLeaves(s: State, id: string, row: Allocation, unit: string)
    requires FreeUnitOf(s.db, unit) && UnitOk(s, unit)
    requires FreeIp(s.db.pool, row.ipAddress) && AddressOk(s, row.ipAddress)
    ensures Settled(s.db, id, row, unit, NothingStored) == s.db
    ensures Settled(s.db, id, row, unit, RowStored) == s.db.(allocations := s.db.allocations[id := Abandoned(row)])
    ensures Settled(s.db, id, row, unit, Complete) == AllocatedDb(s.db, id, row, unit)
  {
    hide AllocatedDb;
    FreedUnitIsUnchanged(s, unit);
    ReleasedIsUnchanged(s, row.ipAddress);
  }

  lemma PickedIsFree(d: Database, filter: Filter)
    requires PickUnit(d, filter).Some?
    ensures FreeUnitOf(d, PickUnit(d, filter).value)
  {
  }

  lemma AdmittedOutcome(s: State, request: AllocationRequest, plan: FaultPlan, unit: string, id: string,
      row: Allocation)
    requires Inv(s) && Admitted(s.db, request, plan, unit, id, row)
    ensures FreeUnitOf(s.db, unit) && AllocateOutcome(s.db, request, plan) == AllocateOn(s.db, request, plan, unit)
    ensures row.ipAddress in s.db.pool && id !in s.db.allocations && s.db.pool[row.ipAddress].status == IpStatus.Free
    ensures var fate := FateOf(plan, true);
            AllocateOutcome(s.db, request, plan) ==
            (Settled(s.db, id, row, unit, fate), if fate.Complete? then Accepted(id) else Refused(PreparationFailed))
    ensures Settled(s.db, id, row, unit, NothingStored) == s.db
    ensures Settled(s.db, id, row, unit, RowStored) == s.db.(allocations := s.db.allocations[id := Abandoned(row)])
    ensures Settled(s.db, id, row, unit, Complete) == AllocatedDb(s.db, id, row, unit)
  {
    hide Inv, AllocateOn, AdmittedOn, Settled, FateOf;
    PickedIsFree(s.db, request.filter);
    AdmittedOnOutcome(s, request, plan, unit, id, row);
  }

  // ---- The invariant ----

  /** An allocation that is not known yet owns nothing. */
  lemma UnknownOwnsNothing(s: State, id: string)
    requires Inv(s) && id !in s.db.allocations
    ensures NoJobFor(s, id) && id !in s.inFlight
    ensures forall c :: !Holds(s, id, c)
  {
    hide AllocationOk, UnitOk, AddressOk, Exclusive, LoginsDistinct, ServersOk, CpusDisjoint, JobsOk;
    forall job | job in s.db.jobs ensures Concerns(job) != Some(id) {
      JobIsOk(s, job);
    }
    assert id in s.inFlight ==> InFlightOk(s, id);
  }

  function AbandonedChange(d: Database, row: Allocation): Change
    requires row.ipAddress in d.pool
  {
    Change(Abandoned(row), d.pool[row.ipAddress], map[])
  }

  function AllocatedChange(d: Database, id: string, row: Allocation, unit: string): Change
    requires unit in d.units
  {
    Change(row, IpAddress(IpStatus.Reserved, Some(id), row.currentHost),
           map[unit := d.units[unit].(status := UnitStatus.Allocating, allocationId := Some(id))])
  }

  lemma AbandonedKeepsInv(s: State, id: string, row: Allocation)
    requires Inv(s) && id !in s.db.allocations && !LoginActive(s.db, row.loginUser)
    requires row.ipAddress in s.db.pool && s.db.pool[row.ipAddress].status == IpStatus.Free
    ensures var t := s.(db := s.db.(allocations := s.db.allocations[id := Abandoned(row)])); Inv(t) && LocalTo(s, t, id)
  {
    hide ServersOk, CpusDisjoint, LoginActive, UnitOk, InFlightOk, JobsOk, Exclusive, LoginsDistinct, Rival, Own,
         SameUnit;
    var t := s.(db := s.db.(allocations := s.db.allocations[id := Abandoned(row)]));
    var change := AbandonedChange(s.db, row);
    assert AddressOk(s, row.ipAddress);
    UnknownOwnsNothing(s, id);
    assert s.db.units + map[] == s.db.units;
    assert s.db.pool[row.ipAddress := s.db.pool[row.ipAddress]] == s.db.pool;
    RewriteKeepsInv(s, t, id, change);
  }

  lemma AllocatedRowsOk(s: State, t: State, id: string, row: Allocation, unit: string)
    requires id !in s.db.allocations && !LoginActive(s.db, row.loginUser)
    requires row.ipAddress in s.db.pool && s.db.pool[row.ipAddress].status == IpStatus.Free
    requires unit in s.db.units && s.db.units[unit].status == UnitStatus.Free
    requires row == NewRow(row.loginUser, row.ipAddress, unit, s.db.units[unit].hostname)
    requires t == s.(db := AllocatedDb(s.db, id, row, unit)) && NoJobFor(s, id)
    ensures AllocationOk(t, id) && OwnJobsOk(t, id)
    ensures var change := AllocatedChange(s.db, id, row, unit);
            OwnAddressOk(change, id) && Rewrites(s, t, id, change)
  {
    hide LoginActive, AwaitsScale;
    AddingGivesOne(s, t, id, AllocationCreate(id, unit));
    assert t.db.units == s.db.units + AllocatedChange(s.db, id, row, unit).units;
  }

  lemma AllocatedKeepsInv(s: State, id: string, row: Allocation, unit: string)
    requires Inv(s) && id !in s.db.allocations && !LoginActive(s.db, row.loginUser)
    requires row.ipAddress in s.db.pool && s.db.pool[row.ipAddress].status == IpStatus.Free
    requires unit in s.db.units && s.db.units[unit].status == UnitStatus.Free
    requires s.db.units[unit].hostname in s.db.servers && s.db.servers[s.db.units[unit].hostname].status == Ready
    requires row == NewRow(row.loginUser, row.ipAddress, unit, s.db.units[unit].hostname)
    ensures var t := s.(db := AllocatedDb(s.db, id, row, unit)); Inv(t) && LocalTo(s, t, id)
  {
    hide ServersOk, CpusDisjoint, LoginActive, UnitOk, InFlightOk, JobsOk, Exclusive, LoginsDistinct, AddressOk,
         OwnAddressOk, Rewrites, OwnJobsOk;
    var t := s.(db := AllocatedDb(s.db, id, row, unit));
    UnknownOwnsNothing(s, id);
    AllocatedRowsOk(s, t, id, row, unit);
    RewriteKeepsInv(s, t, id, AllocatedChange(s.db, id, row, unit));
  }

  /** Where an accepted request places the allocation, and that the host is one it may use. */
  lemma LoginIsNew(d: Database, request: AllocationRequest, plan: FaultPlan, unit: string, id: string, row: Allocation)
    requires AdmittedOn(d, request, plan, unit, id, row)
    ensures !LoginActive(d, row.loginUser)
    ensures row == NewRow(row.loginUser, row.ipAddress, unit, d.units[unit].hostname)
  {
    hide Identity, ValidLogin, LoginActive;
  }

  /**
   The handler on a unit that is still free, whoever selected it and when: it keeps the invariant if it
   refuses, and otherwise exactly if the unit's host is ready.
   */
  lemma AllocateOnIsExact(s: State, request: AllocationRequest, plan: FaultPlan, unit: string)
    requires Inv(s) && FreeUnitOf(s.db, unit) && !plan.LosesEffect()
    ensures s.db.units[unit].hostname in s.db.servers
    ensures var (e, reply) := AllocateOn(s.db, request, plan, unit);
            var t := s.(db := e);
            && (Inv(t) <==> reply.Refused? || s.db.servers[s.db.units[unit].hostname].status == Ready)
            && (Inv(t) ==> t == s || exists id :: id !in s.db.allocations && LocalTo(s, t, id))
  {
    hide LocalTo, Inv, AllocateOn, AdmittedOn, Settled, AllocatedDb, LoginActive;
    UnitHostKnown(s, unit);
    if id, row :| AdmittedOn(s.db, request, plan, unit, id, row) {
      AdmittedOnOutcome(s, request, plan, unit, id, row);
      LoginIsNew(s.db, request, plan, unit, id, row);
      var fate := FateOf(plan, true);
      if fate == RowStored {
        AbandonedKeepsInv(s, id, row);
      } else if fate == Complete {
        if s.db.servers[s.db.units[unit].hostname].status == Ready {
          AllocatedKeepsInv(s, id, row, unit);
        } else {
          AllocatedNeedsReady(s, id, row, unit);
        }
      }
    } else {
      TurnedAwayOnChangesNothing(s, request, plan, unit);
    }
  }

  lemma AllocatedNeedsReady(s: State, id: string, row: Allocation, unit: string)
    requires unit in s.db.units && row.ipAddress in s.db.pool && s.db.units[unit].hostname in s.db.servers
    requires s.db.servers[s.db.units[unit].hostname].status != Ready
    ensures !Inv(s.(db := AllocatedDb(s.db, id, row, unit)))
  {
    hide AllocationOk, AddressOk, InFlightOk, JobsOk, Exclusive, LoginsDistinct, ServersOk, CpusDisjoint;
    assert !UnitOk(s.(db := AllocatedDb(s.db, id, row, unit)), unit);
  }

  lemma PickedHostIsReady(d: Database, filter: Filter)
    requires PickUnit(d, filter).Some?
    ensures var unit := PickUnit(d, filter).value;
            d.units[unit].hostname in d.servers && d.servers[d.units[unit].hostname].status == Ready
  {
  }

  lemma AllocateKeepsInv(s: State, request: AllocationRequest, plan: FaultPlan)
    requires Inv(s) && !plan.LosesEffect()
    ensures var t := s.(db := AllocateOutcome(s.db, request, plan).0);
            Inv(t) && (t == s || exists id :: id !in s.db.allocations && LocalTo(s, t, id))
  {
    hide LocalTo, Inv, AllocateOn;
    if PickUnit(s.db, request.filter).Some? {
      PickedIsFree(s.db, request.filter);
      PickedHostIsReady(s.db, request.filter);
      AllocateOnIsExact(s, request, plan, PickUnit(s.db, request.filter).value);
    }
  }
}
