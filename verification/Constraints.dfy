/** In a valid state no statement of any step hits a key, a foreign key or a partial unique index. */
module Constraints {
  import opened Administration
  import opened Allocations
  import opened Options
  import opened Protocol
  import opened ProtocolAdmin
  import opened ProtocolAllocate
  import opened ProtocolJobs
  import opened ProtocolScale
  import opened Repository
  import opened ServerSpecs
  import opened Tables
  import opened Workers

  /** Giving back a unit alone. */
  predicate ReturnRaises(d: Database, unit: string) {
    Start(d).UpdateUnit(unit, Some(UnitStatus.Free), None, true).raised
  }

  /** The compensation of a request, at whatever point its row was linked. */
  predicate CompensationRaises(d: Database, id: string, ip: string, unit: string) {
    Start(d)
      .ClearAllocationPlacement(id, Some(AllocationStatus.AllocationFail))
      .ReleaseAddress(ip)
      .UpdateUnit(unit, Some(UnitStatus.Free), None, true)
      .raised
  }

  /** The insert and the two updates of an admitted request, and the compensation at each point between them. */
  predicate LinkingRaises(d: Database, id: string, row: Allocation, unit: string) {
    unit in d.units && row.ipAddress in d.pool &&
    var locked := Claimed(d, row.ipAddress, unit);
    var inserted := Start(locked).InsertAllocation(id, row);
    var addressed := inserted.UpdateAddress(row.ipAddress, Some(IpStatus.Reserved), Some(id), row.currentHost);
    var linked := addressed.UpdateUnit(unit, None, Some(id), false);
    || inserted.raised || addressed.raised || linked.raised
    || ReturnRaises(locked, unit)
    || CompensationRaises(inserted.db, id, row.ipAddress, unit)
    || CompensationRaises(addressed.db, id, row.ipAddress, unit)
    || CompensationRaises(linked.db, id, row.ipAddress, unit)
  }

  function Claimed(d: Database, ip: string, unit: string): Database
    requires unit in d.units && ip in d.pool
  {
    d.(units := d.units[unit := d.units[unit].(status := UnitStatus.Allocating)],
       pool := d.pool[ip := d.pool[ip].(status := IpStatus.Reserved)])
  }

  /** Putting the status back after a failed enqueue. */
  predicate UndoRaises(d: Database, id: string) {
    Start(d)
      .UpdateAllocation(id, Some(Scaling), None, None)
      .UpdateAllocation(id, Some(AllocationStatus.Allocated), None, None)
      .raised
  }

  ghost predicate AllocateRaises(d: Database, request: AllocationRequest, plan: FaultPlan) {
    || (PickUnit(d, request.filter).Some? && ReturnRaises(LockUnit(d, request.filter),
      PickUnit(d, request.filter).value))
    || exists unit, id, row :: Admitted(d, request, plan, unit, id, row) && LinkingRaises(d, id, row, unit)
  }

  predicate ScaleRaises(d: Database, id: string, scale: ScaleRequest, fault: CallFault) {
    || ScaleOutcome(d, id, scale, fault).1 == NotUpdated
    || (ScaleOutcome(d, id, scale, fault).1 == EnqueueFailed && UndoRaises(d, id))
  }

  /** A statement of this step would break a constraint of the schema. */
  ghost predicate HitsConstraint(s: State, e: Event)
    requires Allowed(s, e)
  {
    match e
    case Allocate(request, plan) => AllocateRaises(s.db, request, plan)
    case Deallocate(id) => DeallocateOutcome(s.db, id).1 == NotPrepared
    case Scale(id, scale, fault) => ScaleRaises(s.db, id, scale, fault)
    case InsertAddresses(addresses) =>
      InsertAddressesOutcome(s.db, addresses).1 == Done && exists ip :: ip in addresses && ip in s.db.pool
    case RunCreate(id, unit, result) =>
      CreateFinished(Taken(s.db, AllocationCreate(id, unit)), id, unit, result.Successful?).raised
    case RunDelete(id, unit, result) =>
      DeleteFinished(Taken(s.db, AllocationDelete(id, unit)), id, unit, result.Successful?).raised
    case BeginScale(id, filter) =>
      Start(Taken(s.db, AllocationScale(id, filter))).UpdateAllocation(id, Some(ScaleFail), None, None).raised
    case FinishScale(id, result) => ScaleFinished(s.db, id, s.inFlight[id], result.Successful?).raised
    case RunInit(init, result) =>
      !result.Crashed? && InitFinished(Taken(s.db, ServerInit(init)), init, result).raised
    case RunDecomm(hostname, result) =>
      !result.Crashed? && DecommFinished(Taken(s.db, ServerDecomm(hostname)), hostname, result).raised
    case _ => false
  }

  lemma NoConstraintIsHit(s: State, e: Event)
    requires Inv(s) && Allowed(s, e)
    ensures !HitsConstraint(s, e)
  {
    hide Inv, DeallocateOutcome, ScaleOutcome, CreateFinished, DeleteFinished, ScaleFinished, InitFinished,
         DecommFinished, ValidUnits, AllocateRaises, ScaleRaises, InsertAddressesOutcome, Database.AcceptsAllocation,
         InitGuard, DecommissionGuard, NotScaling;
    match e
    case Allocate(request, plan) => AllocateIsStored(s, request, plan);
    case Deallocate(id) => DeallocateIsPrepared(s, id);
    case Scale(id, scale, fault) => ScaleIsUpdated(s, id, scale, fault);
    case InsertAddresses(addresses) => InsertedAddressesAreNew(s.db, addresses);
    case RunCreate(id, unit, result) => CreateIsAtomic(s, id, unit, result.Successful?);
    case RunDelete(id, unit, result) => DeleteIsAtomic(s, id, unit, result.Successful?);
    case BeginScale(id, filter) => NoTargetIsStored(s, id, filter);
    case FinishScale(id, result) =>
      InFlightFacts(s, id);
      FinishIsAtomic(s, id, result.Successful?);
    case RunInit(init, result) => InitStores(s, init, result);
    case RunDecomm(hostname, result) => DecommStores(s, hostname, result);
    case _ =>
  }

  lemma AllocateIsStored(s: State, request: AllocationRequest, plan: FaultPlan)
    requires Inv(s)
    ensures !AllocateRaises(s.db, request, plan)
  {
    hide Inv, LinkingRaises, ReturnRaises, AllocateOutcome, AllocateOn, Settled, FateOf;
    if PickUnit(s.db, request.filter).Some? {
      UnitIsReturned(LockUnit(s.db, request.filter), PickUnit(s.db, request.filter).value);
    }
    forall unit, id, row | Admitted(s.db, request, plan, unit, id, row)
      ensures unit in s.db.units && row.ipAddress in s.db.pool && !LinkingRaises(s.db, id, row, unit)
    {
      AdmittedOutcome(s, request, plan, unit, id, row);
      LinkingIsStored(s, request, plan, unit, id, row);
    }
  }

  lemma LinkingIsStored(s: State, request: AllocationRequest, plan: FaultPlan, unit: string, id: string,
      row: Allocation)
    requires Inv(s) && FreeUnitOf(s.db, unit) && AdmittedOn(s.db, request, plan, unit, id, row)
    requires id !in s.db.allocations && row.ipAddress in s.db.pool
    ensures !LinkingRaises(s.db, id, row, unit)
  {
    hide Inv, ReturnRaises, CompensationRaises, Database.AcceptsAllocation;
    NewRowIsAccepted(s, request, plan, unit, id, row);
    UnitHostKnown(s, unit);
    LoginIsNew(s.db, request, plan, unit, id, row);
    hide AdmittedOn;
    var locked := Claimed(s.db, row.ipAddress, unit);
    AcceptanceIgnoresStatus(s.db, locked, id, row);
    var inserted := Start(locked).InsertAllocation(id, row);
    var addressed := inserted.UpdateAddress(row.ipAddress, Some(IpStatus.Reserved), Some(id), row.currentHost);
    var linked := addressed.UpdateUnit(unit, None, Some(id), false);
    UnitIsReturned(locked, unit);
    CompensationIsStored(s.db, inserted.db, id, row, unit);
    CompensationIsStored(s.db, addressed.db, id, row, unit);
    CompensationIsStored(s.db, linked.db, id, row, unit);
  }

  lemma UnitIsReturned(d: Database, unit: string)
    ensures !ReturnRaises(d, unit)
  {
  }

  lemma CompensationIsStored(d: Database, e: Database, id: string, row: Allocation, unit: string)
    requires d.AcceptsAllocation(id, row) && row.status != Deallocated && e.allocations == d.allocations[id := row]
    ensures !CompensationRaises(e, id, row.ipAddress, unit)
  {
    AbandonedIsAccepted(d, e, id, row);
    hide Database.AcceptsAllocation;
  }

  lemma DeallocateIsPrepared(s: State, a: string)
    requires Inv(s)
    ensures DeallocateOutcome(s.db, a).1 != NotPrepared
  {
    hide Inv;
    if unit :| CanDeallocate(s, a, unit) {
      DeallocateIsAtomic(s, a, unit);
    } else if a in s.db.allocations && s.db.allocations[a].computeId.Some? {
      assert !CanDeallocate(s, a, s.db.allocations[a].computeId.value);
    }
  }

  lemma ScaleIsUpdated(s: State, a: string, request: ScaleRequest, fault: CallFault)
    requires Inv(s)
    ensures !ScaleRaises(s.db, a, request, fault)
  {
    hide Inv;
    if CanScale(s, a, request) {
      ScaleIsAtomic(s, a, request);
      hide Database.AcceptsAllocation;
    } else {
      ScaleRefused(s, a, request, fault);
    }
  }

  lemma InsertedAddressesAreNew(d: Database, addresses: seq<string>)
    ensures InsertAddressesOutcome(d, addresses).1 == Done ==> forall ip :: ip in addresses ==> ip !in d.pool
  {
    assert forall ip :: ip in addresses ==> ip in Collections.ToSet(addresses);
  }

  lemma NoTargetIsStored(s: State, a: string, filter: Filter)
    requires Inv(s) && AllocationScale(a, filter) in s.db.jobs
    ensures !Start(Taken(s.db, AllocationScale(a, filter))).UpdateAllocation(a, Some(ScaleFail), None, None).raised
  {
    hide Inv, Database.AcceptsAllocation;
    QueuedScaleFacts(s, a, filter);
    var d := Taken(s.db, AllocationScale(a, filter));
    UnitHostKnown(s, s.db.allocations[a].computeId.value);
    PlacedRowIsAccepted(s, d, a, s.db.allocations[a].(status := ScaleFail));
  }

  lemma InitStores(s: State, init: InitRequest, result: PlaybookResult)
    requires Inv(s) && ValidUnits(init.specs) && ServerInit(init) in s.db.jobs
    ensures !result.Crashed? ==> !InitFinished(Taken(s.db, ServerInit(init)), init, result).raised
  {
    hide InsertedUnits, InitUnits, AllApart;
    JobIsOk(s, ServerInit(init));
    InsertedUnitsFacts(Taken(s.db, ServerInit(init)), init.hostname, InitUnits(init.specs));
  }

  lemma DecommStores(s: State, hostname: string, result: PlaybookResult)
    requires Inv(s) && ServerDecomm(hostname) in s.db.jobs
    ensures !result.Crashed? ==> !DecommFinished(Taken(s.db, ServerDecomm(hostname)), hostname, result).raised
  {
    JobIsOk(s, ServerDecomm(hostname));
  }

  /** In a valid state every reference of every table is null or names an existing row. */
  lemma ReferencesAreKnown(s: State)
    requires Inv(s)
    ensures s.db.ReferencesKnown()
  {
    hide JobsOk, ServersOk, Exclusive, LoginsDistinct, CpusDisjoint, AwaitsScale;
    forall c | c in s.db.units
      ensures s.db.units[c].hostname in s.db.servers && s.db.KnownAllocation(s.db.units[c].allocationId)
    {
      OwnerIsKnown(s, c);
    }
    forall a | a in s.db.allocations
      ensures s.db.KnownUnit(s.db.allocations[a].computeId) && s.db.KnownServer(s.db.allocations[a].currentHost)
    {
      PlaceIsKnown(s, a);
    }
    forall ip | ip in s.db.pool
      ensures s.db.KnownAllocation(s.db.pool[ip].allocationId) && s.db.KnownServer(s.db.pool[ip].currentHost)
    {
      assert AddressOk(s, ip);
      if s.db.pool[ip].status != IpStatus.Free {
        PlaceIsKnown(s, s.db.pool[ip].allocationId.value);
        assert AllocationOk(s, s.db.pool[ip].allocationId.value);
      }
    }
  }

  lemma OwnerIsKnown(s: State, c: string)
    requires Inv(s) && c in s.db.units
    ensures s.db.units[c].hostname in s.db.servers && s.db.KnownAllocation(s.db.units[c].allocationId)
  {
    hide JobsOk, AddressOk, ServersOk, Exclusive, LoginsDistinct, CpusDisjoint, AwaitsScale;
    assert UnitOk(s, c);
    if s.db.units[c].status != UnitStatus.Free {
      var a :| Holds(s, a, c) || Targets(s, a, c);
      if Holds(s, a, c) {
        assert AllocationOk(s, a);
      } else {
        assert InFlightOk(s, a);
      }
    }
  }

  lemma PlaceIsKnown(s: State, a: string)
    requires Inv(s) && a in s.db.allocations
    ensures s.db.KnownUnit(s.db.allocations[a].computeId) && s.db.KnownServer(s.db.allocations[a].currentHost)
  {
    hide JobsOk, AddressOk, InFlightOk, ServersOk, Exclusive, LoginsDistinct, CpusDisjoint, AwaitsScale, UnitOk;
    assert AllocationOk(s, a);
    if s.db.allocations[a].computeId.Some? {
      UnitHostKnown(s, s.db.allocations[a].computeId.value);
    }
  }
}
